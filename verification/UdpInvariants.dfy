/** What every step of the UDP session protocol keeps. */
module UdpInvariants {
  import opened Common
  import opened UdpProxy

  /** Owners before they have closed `ready`. */
  predicate Building(pc: Pc) { pc.Flow? || pc.Limit? || pc.Charge? || pc.Build? || pc.Ready? || pc.FailClose? }

  /** Owners, at any time. */
  predicate Owning(pc: Pc) {
    Building(pc) || pc.Serve? || pc.FailDelete? || pc.Return? || (pc.Compare? && pc.owner) || (pc.Delete? && pc.owner)
  }

  /** Owners that passed the limit check and have not returned. */
  predicate Charged(pc: Pc) {
    || pc.Build? || pc.Ready? || pc.Serve? || pc.Return?
    || ((pc.FailClose? || pc.FailDelete?) && pc.charged)
    || ((pc.Compare? || pc.Delete?) && pc.owner)
  }

  predicate HasId(pc: Pc) { !pc.Load? && !pc.Store? && !pc.Done? }

  // ----- Threads -----

  /** What a thread knows about its session. */
  predicate ThreadOk(s: State, t: nat)
    requires t < |s.threads|
  {
    var pc := s.threads[t];
    HasId(pc) ==>
      && pc.id < |s.sessions|
      && var x := s.sessions[pc.id];
      && (Owning(pc) ==> x.owner == t)
      && (Building(pc) && !pc.Ready? ==> !x.target && !x.err)
      && (pc.FailDelete? ==> x.err && !x.target)
      && (pc.Write? ==> x.closes > 0)
      && (pc.Write? || pc.Ready? || pc.Serve? || pc.Compare? || pc.Delete? ==> x.target && !x.err)
  }

  predicate ThreadsOk(s: State) { forall t | 0 <= t < |s.threads| :: ThreadOk(s, t) }

  /** A session is open while its owner builds it, and afterwards closed once. */
  predicate SessionOk(s: State, id: nat)
    requires id < |s.sessions|
  {
    var x := s.sessions[id];
    && x.owner < |s.threads|
    && var pc := s.threads[x.owner];
    && x.closes == (if Building(pc) && pc.id == id then 0 else 1)
    && (x.closes > 0 ==> x.err == !x.target)
    && !pc.Load? && !pc.Store?
  }

  predicate SessionsOk(s: State) { forall id | 0 <= id < |s.sessions| :: SessionOk(s, id) }

  predicate AddrsOk(s: State) {
    forall k | k in s.addrs :: s.addrs[k] < |s.sessions| && s.sessions[s.addrs[k]].key == k
  }

  ghost function ChargedThreads(s: State): set<nat> { set t | 0 <= t < |s.threads| && Charged(s.threads[t]) }

  ghost predicate CountOk(s: State) { s.conns == s.others + |ChargedThreads(s)| }

  ghost predicate Inv(s: State) { ThreadsOk(s) && SessionsOk(s) && AddrsOk(s) && CountOk(s) }

  // ----- The counter -----

  lemma MoveCount(s: State, u: State, t: nat)
    requires t < |s.threads| == |u.threads| && u.threads == s.threads[t := u.threads[t]]
    ensures |ChargedThreads(u)| - |ChargedThreads(s)| ==
            (if Charged(u.threads[t]) then 1 else 0) - (if Charged(s.threads[t]) then 1 else 0)
  {
    var a, b := ChargedThreads(s), ChargedThreads(u);
    assert a - {t} == b - {t};
    assert |a - {t}| == |a| - (if t in a then 1 else 0);
    assert |b - {t}| == |b| - (if t in b then 1 else 0);
  }

  lemma GoCount(s: State, t: nat, ok: bool)
    requires CountOk(s) && t < |s.threads| && s.threads[t] != Done
    ensures CountOk(DoGo(s, t, ok))
  {
    var u := DoGo(s, t, ok);
    GoFrame(s, t, ok);
    MoveCount(s, u, t);
    GoConns(s, t, ok);
  }

  lemma GoFrame(s: State, t: nat, ok: bool)
    requires t < |s.threads| && s.threads[t] != Done
    ensures var u := DoGo(s, t, ok);
      |u.threads| == |s.threads| && u.threads == s.threads[t := u.threads[t]] && u.others == s.others
  {
    assert s.threads == s.threads[t := s.threads[t]];
  }

  /** The counter moves with the number of charged threads. */
  lemma GoConns(s: State, t: nat, ok: bool)
    requires t < |s.threads| && s.threads[t] != Done
    ensures var u := DoGo(s, t, ok);
      |u.threads| == |s.threads| &&
      u.conns - s.conns == (if Charged(u.threads[t]) then 1 else 0) - (if Charged(s.threads[t]) then 1 else 0)
  {
  }

  // ----- Threads and sessions -----

  /** A thread that is not at a session touches none; the owner only its own. */
  lemma GoSessions(s: State, t: nat, ok: bool)
    requires t < |s.threads| && s.threads[t] != Done
    ensures var u, pc := DoGo(s, t, ok), s.threads[t];
      && |s.sessions| <= |u.sessions| <= |s.sessions| + 1
      && (|u.sessions| == |s.sessions| + 1 ==>
            pc.Store? && u.sessions == s.sessions + [Session(pc.key, t, false, false, 0)])
      && forall id | 0 <= id < |s.sessions| && u.sessions[id] != s.sessions[id] ::
           (pc.Build? || pc.Ready? || pc.FailClose?) && pc.id == id
  {
  }

  /** Threads other than the one that moves. */
  lemma GoOther(s: State, t: nat, ok: bool, o: nat)
    requires ThreadsOk(s) && SessionsOk(s) && t < |s.threads| && s.threads[t] != Done && o < |s.threads| && o != t
    ensures |DoGo(s, t, ok).threads| == |s.threads| && ThreadOk(DoGo(s, t, ok), o)
  {
    GoFrame(s, t, ok);
    GoSessions(s, t, ok);
    assert ThreadOk(s, o) && ThreadOk(s, t);
    if HasId(s.threads[o]) && HasId(s.threads[t]) {
      assert SessionOk(s, s.threads[o].id);
      GoOwn(s, t, ok);
    }
  }

  /** What the owner does to its session. */
  lemma GoOwn(s: State, t: nat, ok: bool)
    requires t < |s.threads| && HasId(s.threads[t]) && s.threads[t].id < |s.sessions|
    ensures var u, pc := DoGo(s, t, ok), s.threads[t];
      |u.sessions| == |s.sessions| &&
      u.sessions[pc.id] ==
        if pc.Build? && ok then s.sessions[pc.id].(target := true)
        else if pc.Ready? then s.sessions[pc.id].(closes := s.sessions[pc.id].closes + 1)
        else if pc.FailClose? then s.sessions[pc.id].(err := true, closes := s.sessions[pc.id].closes + 1)
        else s.sessions[pc.id]
  {
  }

  lemma GoSelf(s: State, t: nat, ok: bool)
    requires ThreadsOk(s) && SessionsOk(s) && AddrsOk(s) && Enabled(s, Go(t, ok))
    ensures |DoGo(s, t, ok).threads| == |s.threads| && ThreadOk(DoGo(s, t, ok), t)
  {
    GoFrame(s, t, ok);
    assert ThreadOk(s, t);
    if HasId(s.threads[t]) { assert SessionOk(s, s.threads[t].id); }
  }

  lemma GoThreads(s: State, t: nat, ok: bool)
    requires ThreadsOk(s) && SessionsOk(s) && AddrsOk(s) && Enabled(s, Go(t, ok))
    ensures ThreadsOk(DoGo(s, t, ok))
  {
    var u := DoGo(s, t, ok);
    GoFrame(s, t, ok);
    forall o | 0 <= o < |u.threads| ensures ThreadOk(u, o) {
      if o == t { GoSelf(s, t, ok); } else { GoOther(s, t, ok, o); }
    }
  }

  lemma GoSession(s: State, t: nat, ok: bool, id: nat)
    requires ThreadsOk(s) && SessionsOk(s) && Enabled(s, Go(t, ok)) && id < |s.sessions|
    ensures |DoGo(s, t, ok).sessions| >= |s.sessions| && SessionOk(DoGo(s, t, ok), id)
  {
    GoFrame(s, t, ok);
    GoSessions(s, t, ok);
    assert ThreadOk(s, t) && SessionOk(s, id);
    if HasId(s.threads[t]) { GoOwn(s, t, ok); }
  }

  lemma GoNewSession(s: State, t: nat, ok: bool)
    requires Enabled(s, Go(t, ok)) && |DoGo(s, t, ok).sessions| > |s.sessions|
    ensures SessionOk(DoGo(s, t, ok), |s.sessions|)
  {
    GoFrame(s, t, ok);
    GoSessions(s, t, ok);
  }

  lemma GoSessionsOk(s: State, t: nat, ok: bool)
    requires ThreadsOk(s) && SessionsOk(s) && Enabled(s, Go(t, ok))
    ensures SessionsOk(DoGo(s, t, ok))
  {
    var u := DoGo(s, t, ok);
    GoSessions(s, t, ok);
    forall id | 0 <= id < |u.sessions| ensures SessionOk(u, id) {
      if id < |s.sessions| { GoSession(s, t, ok, id); } else { GoNewSession(s, t, ok); }
    }
  }

  lemma GoAddrs(s: State, t: nat, ok: bool)
    requires ThreadsOk(s) && AddrsOk(s) && Enabled(s, Go(t, ok))
    ensures AddrsOk(DoGo(s, t, ok))
  {
    GoSessions(s, t, ok);
    assert ThreadOk(s, t);
    if HasId(s.threads[t]) { GoOwn(s, t, ok); }
  }

  /** A new thread, not charged and knowing no more than that its session has a target. */
  lemma SpawnInv(s: State, pc: Pc)
    requires Inv(s) && !Owning(pc) && !Charged(pc) && !pc.Write? && !pc.FailDelete? && !pc.Delete?
    requires HasId(pc) ==> pc.id < |s.sessions| && (pc.Compare? ==> s.sessions[pc.id].target && !s.sessions[pc.id].err)
    ensures Inv(s.(threads := s.threads + [pc]))
  {
    var u := s.(threads := s.threads + [pc]);
    forall t | 0 <= t < |u.threads| ensures ThreadOk(u, t) {
      if t < |s.threads| { assert ThreadOk(s, t); }
    }
    forall id | 0 <= id < |u.sessions| ensures SessionOk(u, id) { assert SessionOk(s, id); }
    assert ChargedThreads(u) == ChargedThreads(s);
  }

  /** A target means that there is no error. */
  lemma TargetNoError(s: State, id: nat)
    requires ThreadsOk(s) && SessionsOk(s) && id < |s.sessions| && s.sessions[id].target
    ensures !s.sessions[id].err
  {
    assert SessionOk(s, id);
    assert ThreadOk(s, s.sessions[id].owner);
  }

  lemma StepInv(s: State, a: Step)
    requires Inv(s) && Enabled(s, a)
    ensures Inv(Do(s, a))
  {
    match a
    case Arrive(key) => SpawnInv(s, Load(key));
    case Sweep(key) =>
      TargetNoError(s, s.addrs[key]);
      SpawnInv(s, Compare(s.addrs[key], false));
    case Others(delta) =>
      var u := Do(s, a);
      assert ChargedThreads(u) == ChargedThreads(s);
      forall t | 0 <= t < |u.threads| ensures ThreadOk(u, t) { assert ThreadOk(s, t); }
      forall id | 0 <= id < |u.sessions| ensures SessionOk(u, id) { assert SessionOk(s, id); }
    case Go(t, ok) =>
      GoThreads(s, t, ok);
      GoSessionsOk(s, t, ok);
      GoAddrs(s, t, ok);
      GoCount(s, t, ok);
  }

  lemma TryInv(s: State, a: Step)
    requires Inv(s)
    ensures Inv(Try(s, a))
  {
    if Enabled(s, a) { StepInv(s, a); }
  }

  lemma StartInv(conns: int, max: nat)
    ensures Inv(Start(conns, max))
  {
    assert ChargedThreads(Start(conns, max)) == {};
  }

  /** What holds at the start and is kept by the steps of a run holds throughout it. */
  lemma {:induction false} Induct(p: State -> bool, c: (State, Step) -> bool, s: State, run: seq<Step>, n: nat)
    requires n <= |run| && p(s) && forall u, a | p(u) && c(u, a) :: p(Try(u, a))
    requires forall m | 0 <= m < n :: c(At(s, run, m), run[m])
    ensures p(At(s, run, n))
  {
    if n > 0 { Induct(p, c, s, run, n - 1); }
  }

  lemma {:induction false} InductAt(p: State -> bool, s: State, run: seq<Step>, n: nat)
    requires n <= |run| && p(s) && forall m | 0 <= m < n && p(At(s, run, m)) :: p(Try(At(s, run, m), run[m]))
    ensures p(At(s, run, n))
  {
    if n > 0 { InductAt(p, s, run, n - 1); }
  }

  lemma {:induction false} RunInv(conns: int, max: nat, run: seq<Step>, n: nat)
    requires n <= |run|
    ensures Inv(At(Start(conns, max), run, n))
  {
    StartInv(conns, max);
    forall u, a | Inv(u) ensures Inv(Try(u, a)) { TryInv(u, a); }
    Induct(u => Inv(u), (u, a) => true, Start(conns, max), run, n);
  }

  /** The same for one thread, and for one session. */
  lemma RunThread(conns: int, max: nat, run: seq<Step>, n: nat, t: nat)
    requires n <= |run| && t < |At(Start(conns, max), run, n).threads|
    ensures ThreadOk(At(Start(conns, max), run, n), t)
  {
    RunInv(conns, max, run, n);
  }

  lemma RunSession(conns: int, max: nat, run: seq<Step>, n: nat, id: nat)
    requires n <= |run| && id < |At(Start(conns, max), run, n).sessions|
    ensures SessionOk(At(Start(conns, max), run, n), id)
  {
    RunInv(conns, max, run, n);
  }
}
