/** Removing a session: `removeSession` compares and deletes in two steps, and `failBuild` deletes
    without comparing (nps-master/server/proxy/udp.go). */
module UdpRemoval {
  import opened Common
  import opened UdpProxy
  import opened UdpInvariants
  import opened UdpRuns

  predicate Deleting(pc: Pc) { pc.Delete? || pc.FailDelete? }

  /** The step is the removal of a session that takes another one out of the map. */
  predicate HitsAnother(s: State, a: Step) {
    a.Go? && a.t < |s.threads| && Deleting(s.threads[a.t])
    && KeyOf(s, s.threads[a.t].id) in s.addrs && !Stored(s, s.threads[a.t].id)
  }

  /** While its owner has neither a target for it nor given up, a session is in the map. */
  predicate Kept(s: State, id: nat)
    requires id < |s.sessions|
  {
    var x := s.sessions[id];
    x.owner < |s.threads|
    && ((Building(s.threads[x.owner]) || s.threads[x.owner].FailDelete?) && s.threads[x.owner].id == id && !x.target
        ==> Stored(s, id))
  }

  predicate AllKept(s: State) { forall id | 0 <= id < |s.sessions| :: Kept(s, id) }

  lemma GoKeeps(s: State, t: nat, ok: bool, id: nat)
    requires Inv(s) && AllKept(s) && Enabled(s, Go(t, ok)) && !HitsAnother(s, Go(t, ok)) && id < |s.sessions|
    ensures id < |DoGo(s, t, ok).sessions| && Kept(DoGo(s, t, ok), id)
  {
    GoFrame(s, t, ok);
    GoSessions(s, t, ok);
    assert ThreadOk(s, t) && SessionOk(s, id) && Kept(s, id);
    if HasId(s.threads[t]) { GoOwn(s, t, ok); }
  }

  lemma GoKeepsNew(s: State, t: nat, ok: bool)
    requires Enabled(s, Go(t, ok)) && |DoGo(s, t, ok).sessions| > |s.sessions|
    ensures Kept(DoGo(s, t, ok), |s.sessions|)
  {
    GoSessions(s, t, ok);
  }

  lemma StepKeeps(s: State, a: Step)
    requires Inv(s) && AllKept(s) && Enabled(s, a) && !HitsAnother(s, a)
    ensures AllKept(Do(s, a))
  {
    var u := Do(s, a);
    if a.Go? { GoSessions(s, a.t, a.ok); }
    forall id | 0 <= id < |u.sessions| ensures Kept(u, id) {
      if a.Go? {
        if id < |s.sessions| { GoKeeps(s, a.t, a.ok, id); } else { GoKeepsNew(s, a.t, a.ok); }
      } else {
        assert Kept(s, id) && SessionOk(s, id);
      }
    }
  }

  lemma CompareThenDelete(s: State, t: nat, ok: bool)
    requires Enabled(s, Go(t, ok)) && DoGo(s, t, ok).threads[t].Delete?
    ensures s.threads[t].Compare? && s.threads[t].id == DoGo(s, t, ok).threads[t].id && DoGo(s, t, ok).addrs == s.addrs
    ensures Stored(DoGo(s, t, ok), s.threads[t].id)
  {
  }

  /** Were comparison and deletion one step: every deletion in `removeSession` follows directly
      on its comparison. */
  predicate Atomic(s: State, run: seq<Step>) { forall m | 0 <= m < |run| :: AtomicAt(s, run, m) }

  predicate AtomicAt(s: State, run: seq<Step>, m: nat)
    requires m < |run|
  {
    DeletesAt(s, run, m) ==> m > 0 && Moves(s, run, m - 1, run[m].t)
  }

  /** Step `m` is a deletion of `removeSession`. */
  predicate DeletesAt(s: State, run: seq<Step>, m: nat)
    requires m < |run|
  {
    run[m].Go? && Moves(s, run, m, run[m].t) && At(s, run, m).threads[run[m].t].Delete?
  }

  // ----- Exactly when it goes wrong -----

  /** Step `m` takes session `id` out of the map. */
  predicate Loses(s: State, run: seq<Step>, m: nat, id: nat)
    requires m < |run|
  {
    Stored(At(s, run, m), id) && !Stored(At(s, run, m + 1), id)
  }

  /** Step `l` stores a session under `key`, which is then taken until step `m`. */
  predicate Takes(s: State, run: seq<Step>, l: nat, m: nat, key: string)
    requires l < m <= |run|
  {
    key !in At(s, run, l).addrs && forall x | l < x <= m :: key in At(s, run, x).addrs
  }

  /** Step `i` is the comparison of thread `t` that found session `id`. */
  predicate Finds(s: State, run: seq<Step>, i: nat, t: nat, id: nat)
    requires i < |run|
  {
    && Moves(s, run, i, t) && At(s, run, i).threads[t].Compare? && At(s, run, i).threads[t].id == id
    && Stored(At(s, run, i), id)
  }

  /** A session that is not in the map does not come back. */
  lemma StepStaysLost(s: State, a: Step, id: nat)
    requires Enabled(s, a) && id < |s.sessions| && !Stored(s, id)
    ensures id < |Do(s, a).sessions| && KeyOf(Do(s, a), id) == KeyOf(s, id) && !Stored(Do(s, a), id)
  {
    StepKeepsKey(s, a, id);
  }

  lemma StepKeepsKey(s: State, a: Step, id: nat)
    requires Enabled(s, a) && id < |s.sessions|
    ensures id < |Do(s, a).sessions| && KeyOf(Do(s, a), id) == KeyOf(s, id)
  {
    if a.Go? {
      GoSessions(s, a.t, a.ok);
      if HasId(s.threads[a.t]) && s.threads[a.t].id < |s.sessions| { GoOwn(s, a.t, a.ok); }
    }
  }

  lemma {:induction false} StaysLost(s: State, run: seq<Step>, j: nat, m: nat, id: nat)
    requires j <= m <= |run| && id < |At(s, run, j).sessions|
    ensures id < |At(s, run, m).sessions| && KeyOf(At(s, run, m), id) == KeyOf(At(s, run, j), id)
    ensures !Stored(At(s, run, j), id) ==> !Stored(At(s, run, m), id)
    decreases m
  {
    if j < m {
      StaysLost(s, run, j, m - 1, id);
      var u := At(s, run, m - 1);
      if Enabled(u, run[m - 1]) {
        StepKeepsKey(u, run[m - 1], id);
        if !Stored(u, id) { StepStaysLost(u, run[m - 1], id); }
      }
    }
  }

  /** A session is in the map when it is created. */
  lemma StoredWhenNew(s: State, a: Step, id: nat)
    requires Enabled(s, a) && |s.sessions| <= id < |Do(s, a).sessions|
    ensures Stored(Do(s, a), id)
  {
    if a.Go? { GoSessions(s, a.t, a.ok); }
  }

  /** So one that is missing was lost at some step. */
  lemma {:induction false} LostSomewhere(s: State, run: seq<Step>, m: nat, id: nat) returns (j: nat)
    requires m <= |run| && s.sessions == [] && id < |At(s, run, m).sessions| && !Stored(At(s, run, m), id)
    ensures j < m && Loses(s, run, j, id)
  {
    var u := At(s, run, m - 1);
    if id >= |u.sessions| {
      StoredWhenNew(u, run[m - 1], id);
      assert false;
    } else if Stored(u, id) {
      j := m - 1;
    } else {
      j := LostSomewhere(s, run, m - 1, id);
    }
  }

  lemma LosingFreesTheKey(s: State, run: seq<Step>, j: nat, id: nat)
    requires j < |run| && Loses(s, run, j, id)
    ensures id < |At(s, run, j).sessions| && KeyOf(At(s, run, j), id) !in At(s, run, j + 1).addrs
  {
    var u := At(s, run, j);
    StepKeepsKey(u, run[j], id);
  }

  /** A key that was free and is taken was taken by some step since. */
  lemma {:induction false} TakenSomewhere(s: State, run: seq<Step>, j: nat, m: nat, key: string) returns (l: nat)
    requires j <= m <= |run| && key !in At(s, run, j).addrs && key in At(s, run, m).addrs
    ensures j <= l < m && Takes(s, run, l, m, key)
  {
    l := m - 1;
    while key in At(s, run, l).addrs
      invariant j <= l < m && forall x | l < x <= m :: key in At(s, run, x).addrs
      decreases l
    {
      l := l - 1;
    }
  }

  /** A thread about to delete has compared before. */
  lemma {:induction false} FoundSomewhere(s: State, run: seq<Step>, m: nat, t: nat) returns (i: nat)
    requires m <= |run| && s.threads == [] && t < |At(s, run, m).threads| && At(s, run, m).threads[t].Delete?
    ensures i < m && Finds(s, run, i, t, At(s, run, m).threads[t].id)
  {
    var u := At(s, run, m - 1);
    if Enabled(u, run[m - 1]) && run[m - 1].Go? && run[m - 1].t == t {
      GoFrame(u, t, run[m - 1].ok);
      CompareThenDelete(u, t, run[m - 1].ok);
      SameSessions(u, t, run[m - 1].ok);
      i := m - 1;
    } else {
      if Enabled(u, run[m - 1]) { NewThreadsDoNotDelete(u, run[m - 1], t); }
      i := FoundSomewhere(s, run, m - 1, t);
    }
  }

  lemma SameSessions(s: State, t: nat, ok: bool)
    requires Enabled(s, Go(t, ok)) && s.threads[t].Compare?
    ensures DoGo(s, t, ok).sessions == s.sessions && DoGo(s, t, ok).addrs == s.addrs
  {
  }

  lemma NewThreadsDoNotDelete(s: State, a: Step, t: nat)
    requires Enabled(s, a) && !(a.Go? && a.t == t) && t < |Do(s, a).threads| && Do(s, a).threads[t].Delete?
    ensures t < |s.threads| && s.threads[t] == Do(s, a).threads[t]
  {
    if a.Go? { GoFrame(s, a.t, a.ok); }
  }

  /** After the comparison of `t` found session `id`, somebody took that out, and `key` has
      since been taken again. */
  ghost predicate Overtaken(s: State, run: seq<Step>, m: nat, t: nat, id: nat, key: string)
    requires m < |run|
  {
    exists i, j, l | 0 <= i < j < l < m :: Finds(s, run, i, t, id) && Loses(s, run, j, id) && Takes(s, run, l, m, key)
  }

  /** A removal takes out another session exactly when it has been overtaken. */
  lemma SuccessorHitExactly(conns: int, max: nat, run: seq<Step>, m: nat, t: nat)
    requires m < |run| && Moves(Start(conns, max), run, m, t)
    requires At(Start(conns, max), run, m).threads[t].Delete?
    ensures var s := Start(conns, max);
      var id := At(s, run, m).threads[t].id;
      HitsAnother(At(s, run, m), run[m]) <==> Overtaken(s, run, m, t, id, KeyOf(At(s, run, m), id))
  {
    var s := Start(conns, max);
    var id := At(s, run, m).threads[t].id;
    RunThread(conns, max, run, m, t);
    if HitsAnother(At(s, run, m), run[m]) { HitIsOvertaken(s, run, m, t, id); }
    if Overtaken(s, run, m, t, id, KeyOf(At(s, run, m), id)) { OvertakenHits(s, run, m, t, id); }
  }

  lemma HitIsOvertaken(s: State, run: seq<Step>, m: nat, t: nat, id: nat)
    requires m < |run| && s.threads == [] && s.sessions == [] && t < |At(s, run, m).threads|
    requires At(s, run, m).threads[t].Delete? && At(s, run, m).threads[t].id == id && id < |At(s, run, m).sessions|
    requires KeyOf(At(s, run, m), id) in At(s, run, m).addrs && !Stored(At(s, run, m), id)
    ensures Overtaken(s, run, m, t, id, KeyOf(At(s, run, m), id))
  {
    var i := FoundSomewhere(s, run, m, t);
    var j, l := LostThenTaken(s, run, m, id, KeyOf(At(s, run, m), id));
    FoundBeforeLost(s, run, i, j, t, id);
  }

  lemma LostThenTaken(s: State, run: seq<Step>, m: nat, id: nat, key: string) returns (j: nat, l: nat)
    requires m < |run| && s.sessions == [] && id < |At(s, run, m).sessions| && key == KeyOf(At(s, run, m), id)
    requires key in At(s, run, m).addrs && !Stored(At(s, run, m), id)
    ensures j < l < m && Loses(s, run, j, id) && Takes(s, run, l, m, key)
  {
    j := LostSomewhere(s, run, m, id);
    LosingFreesTheKey(s, run, j, id);
    StaysLost(s, run, j, m, id);
    l := TakenSomewhere(s, run, j + 1, m, key);
  }

  lemma OvertakenHits(s: State, run: seq<Step>, m: nat, t: nat, id: nat)
    requires m < |run| && Overtaken(s, run, m, t, id, KeyOf(At(s, run, m), id))
    ensures KeyOf(At(s, run, m), id) in At(s, run, m).addrs && !Stored(At(s, run, m), id)
  {
    var i, j, l :| 0 <= i < j < l < m && Finds(s, run, i, t, id) && Loses(s, run, j, id)
                   && Takes(s, run, l, m, KeyOf(At(s, run, m), id));
    StepKeepsLost(s, run, j, m, id);
  }

  lemma StepKeepsLost(s: State, run: seq<Step>, j: nat, m: nat, id: nat)
    requires j < m <= |run| && Loses(s, run, j, id)
    ensures !Stored(At(s, run, m), id)
  {
    var u := At(s, run, j);
    StepKeepsKey(u, run[j], id);
    StaysLost(s, run, j + 1, m, id);
  }

  lemma FoundBeforeLost(s: State, run: seq<Step>, i: nat, j: nat, t: nat, id: nat)
    requires i < |run| && j < |run| && Finds(s, run, i, t, id) && Loses(s, run, j, id)
    ensures i < j
  {
    SameSessions(At(s, run, i), t, run[i].ok);
    if j < i { StepKeepsLost(s, run, j, i, id); }
  }

  // ----- Over a whole run -----

  lemma TryKeeps(s: State, a: Step)
    requires Inv(s) && AllKept(s) && !HitsAnother(s, a)
    ensures Inv(Try(s, a)) && AllKept(Try(s, a))
  {
    TryInv(s, a);
    if Enabled(s, a) { StepKeeps(s, a); }
  }

  lemma KeptUntil(conns: int, max: nat, run: seq<Step>, n: nat)
    requires n <= |run| && forall m | 0 <= m < n :: !HitsAnother(At(Start(conns, max), run, m), run[m])
    ensures AllKept(At(Start(conns, max), run, n))
  {
    StartInv(conns, max);
    forall u, a | Inv(u) && AllKept(u) && !HitsAnother(u, a) ensures Inv(Try(u, a)) && AllKept(Try(u, a)) {
      TryKeeps(u, a);
    }
    Induct(u => Inv(u) && AllKept(u), (u, a) => !HitsAnother(u, a), Start(conns, max), run, n);
  }

  /** Step `m` is a deletion of `removeSession` that has been overtaken. */
  ghost predicate OvertakenAt(s: State, run: seq<Step>, m: nat)
    requires m < |run|
  {
    run[m].Go? && Moves(s, run, m, run[m].t)
    && var pc := At(s, run, m).threads[run[m].t];
       pc.Delete? && Overtaken(s, run, m, run[m].t, pc.id, KeyOf(At(s, run, m), pc.id))
  }

  lemma {:induction false} FirstHit(s: State, run: seq<Step>, m: nat) returns (f: nat)
    requires m < |run| && HitsAnother(At(s, run, m), run[m])
    ensures f <= m && HitsAnother(At(s, run, f), run[f]) && forall k | 0 <= k < f :: !HitsAnother(At(s, run, k), run[k])
  {
    if k :| 0 <= k < m && HitsAnother(At(s, run, k), run[k]) { f := FirstHit(s, run, k); } else { f := m; }
  }

  /** The first step that takes out another session is a deletion of `removeSession`. */
  lemma FirstHitIsDelete(conns: int, max: nat, run: seq<Step>, f: nat)
    requires f < |run| && HitsAnother(At(Start(conns, max), run, f), run[f])
    requires forall k | 0 <= k < f :: !HitsAnother(At(Start(conns, max), run, k), run[k])
    ensures Moves(Start(conns, max), run, f, run[f].t) && At(Start(conns, max), run, f).threads[run[f].t].Delete?
  {
    var u := At(Start(conns, max), run, f);
    KeptUntil(conns, max, run, f);
    RunInv(conns, max, run, f);
    if u.threads[run[f].t].FailDelete? { KeptIsNotHit(u, run[f].t, run[f].ok); }
  }

  lemma KeptIsNotHit(s: State, t: nat, ok: bool)
    requires ThreadsOk(s) && AllKept(s) && t < |s.threads| && s.threads[t].FailDelete?
    ensures !HitsAnother(s, Go(t, ok))
  {
    assert ThreadOk(s, t);
    assert Kept(s, s.threads[t].id);
  }

  /** Some step of a run, be it of `removeSession` or of `failBuild`, takes out a session other
      than its own exactly when some deletion of `removeSession` is overtaken. */
  lemma RunHitsExactly(conns: int, max: nat, run: seq<Step>)
    ensures var s := Start(conns, max);
      (exists m :: 0 <= m < |run| && HitsAnother(At(s, run, m), run[m])) <==>
      (exists m :: 0 <= m < |run| && OvertakenAt(s, run, m))
  {
    var s := Start(conns, max);
    if m :| 0 <= m < |run| && HitsAnother(At(s, run, m), run[m]) {
      var f := FirstHit(s, run, m);
      FirstHitIsDelete(conns, max, run, f);
      SuccessorHitExactly(conns, max, run, f, run[f].t);
      assert OvertakenAt(s, run, f);
    }
    if m :| 0 <= m < |run| && OvertakenAt(s, run, m) {
      SuccessorHitExactly(conns, max, run, m, run[m].t);
      assert HitsAnother(At(s, run, m), run[m]);
    }
  }

  /** Where every deletion of `removeSession` follows directly on its comparison, no ending session
      ever takes another one out of the map, and in particular not its successor. */
  lemma AtomicRemovalIsSafe(conns: int, max: nat, run: seq<Step>, m: nat)
    requires Atomic(Start(conns, max), run) && m < |run|
    ensures !HitsAnother(At(Start(conns, max), run, m), run[m])
  {
    var s := Start(conns, max);
    if HitsAnother(At(s, run, m), run[m]) {
      var f := FirstHit(s, run, m);
      FirstHitIsDelete(conns, max, run, f);
      AdjacentIsNoHit(s, run, f);
    }
  }

  lemma AdjacentIsNoHit(s: State, run: seq<Step>, m: nat)
    requires m < |run| && s.threads == [] && Atomic(s, run) && DeletesAt(s, run, m)
    ensures !HitsAnother(At(s, run, m), run[m])
  {
    assert AtomicAt(s, run, m);
    CompareThenDelete(At(s, run, m - 1), run[m].t, run[m - 1].ok);
  }

  /** For either kind of deletion: it takes out another session exactly when its own was lost
      before and the key has since been taken again. */
  lemma DeletionHitsExactly(conns: int, max: nat, run: seq<Step>, m: nat, t: nat)
    requires m < |run| && Moves(Start(conns, max), run, m, t) && Deleting(At(Start(conns, max), run, m).threads[t])
    ensures var s := Start(conns, max);
      var id := At(s, run, m).threads[t].id;
      HitsAnother(At(s, run, m), run[m]) <==>
      exists j, l | 0 <= j < l < m :: Loses(s, run, j, id) && Takes(s, run, l, m, KeyOf(At(s, run, m), id))
  {
    var s := Start(conns, max);
    var id := At(s, run, m).threads[t].id;
    RunThread(conns, max, run, m, t);
    if HitsAnother(At(s, run, m), run[m]) {
      var j, l := LostThenTaken(s, run, m, id, KeyOf(At(s, run, m), id));
    }
    if j, l :| 0 <= j < l < m && Loses(s, run, j, id) && Takes(s, run, l, m, KeyOf(At(s, run, m), id)) {
      StepKeepsLost(s, run, j, m, id);
    }
  }

  // ----- Runs in which it goes wrong -----

  const IDLE: Session := Session("k", 0, true, false, 1)

  /** A session is served, and the sweeper has found it idle and compared. */
  lemma RaceStarts(s: State, t: nat)
    requires s == Start(0, 0)
    ensures Follows(s, [Arrive("k")] + Open(0) + [Sweep("k")] + [Go(1, true)],
                    State(map["k" := 0], [IDLE], [Serve(0), Delete(0, false)], 1, 0, 0))
  {
    var a := Arrived(s, "k");
    var b := State(map["k" := 0], [IDLE], [Serve(0)], 1, 0, 0);
    var c := b.(threads := [Serve(0), Compare(0, false)]);
    Arrives(s, "k");
    Opens(a, 0, "k");
    Join(s, [Arrive("k")], a, Open(0), b);
    Sweeps(b, "k");
    Join(s, [Arrive("k")] + Open(0), b, [Sweep("k")], c);
    Compares(c, 1, 0, false);
    Join(s, [Arrive("k")] + Open(0) + [Sweep("k")], c, [Go(1, true)], c.(threads := [Serve(0), Delete(0, false)]));
  }

  /** The read fails and the owner removes its session. */
  lemma RaceRemoves(s: State)
    requires s == State(map["k" := 0], [IDLE], [Serve(0), Delete(0, false)], 1, 0, 0)
    ensures Follows(s, [Go(0, false)] + [Go(0, true)] + [Go(0, true)],
                    State(map[], [IDLE], [Return(0), Delete(0, false)], 1, 0, 0))
  {
    var a := s.(threads := [Compare(0, true), Delete(0, false)]);
    var b := s.(threads := [Delete(0, true), Delete(0, false)]);
    Stops(s, 0, 0);
    Compares(a, 0, 0, true);
    Join(s, [Go(0, false)], a, [Go(0, true)], b);
    Deletes(b, 0, 0, true);
    Join(s, [Go(0, false)] + [Go(0, true)], b, [Go(0, true)],
         State(map[], [IDLE], [Return(0), Delete(0, false)], 1, 0, 0));
  }

  /** A packet takes the key again. */
  lemma RaceTakes(s: State)
    requires s == State(map[], [IDLE], [Return(0), Delete(0, false)], 1, 0, 0)
    ensures Follows(s, [Arrive("k")] + ([Go(2, true)] + [Go(2, true)]),
                    Raced())
  {
    var a := Arrived(s, "k");
    Arrives(s, "k");
    Stores(a, 2, "k");
    Join(s, [Arrive("k")], a, [Go(2, true)] + [Go(2, true)],
         Raced());
  }

  /** Up to the step that goes wrong. */
  function Race(): seq<Step> {
    ([Arrive("k")] + Open(0) + [Sweep("k")] + [Go(1, true)]) + ([Go(0, false)] + [Go(0, true)] + [Go(0, true)])
    + ([Arrive("k")] + ([Go(2, true)] + [Go(2, true)]))
  }

  function Raced(): State {
    State(map["k" := 1], [IDLE, Session("k", 2, false, false, 0)], [Return(0), Delete(0, false), Flow(1)], 1, 0, 0)
  }

  lemma RaceRuns(s: State)
    requires s == Start(0, 0)
    ensures Follows(s, Race(), Raced())
  {
    var a := State(map["k" := 0], [IDLE], [Serve(0), Delete(0, false)], 1, 0, 0);
    var b := State(map[], [IDLE], [Return(0), Delete(0, false)], 1, 0, 0);
    var first := [Arrive("k")] + Open(0) + [Sweep("k")] + [Go(1, true)];
    var more := [Go(0, false)] + [Go(0, true)] + [Go(0, true)];
    RaceStarts(s, 0);
    RaceRemoves(a);
    Join(s, first, a, more, b);
    RaceTakes(b);
    Join(s, first + more, b, [Arrive("k")] + ([Go(2, true)] + [Go(2, true)]), Raced());
  }

  /** The deletion that thread `t` is about to make takes session `id` out, which is not its own. */
  predicate TakesOut(s: State, t: nat, id: nat) {
    t < |s.threads| && Deleting(s.threads[t]) && s.threads[t].id != id && HitsAnother(s, Go(t, true))
    && Stored(s, id) && !Stored(Do(s, Go(t, true)), id)
  }

  lemma RacedHits()
    ensures TakesOut(Raced(), 1, 1) && Raced().threads[1].Delete?
  {
  }

  /** The code does not keep "an ending session never removes its successor": after this run the
      sweeper takes out the session that another thread is building. */
  lemma SuccessorCanBeRemoved()
    ensures exists run: seq<Step>, u: State, t: nat, id: nat ::
      Follows(Start(0, 0), run, u) && TakesOut(u, t, id) && u.threads[t].Delete?
  {
    RaceRuns(Start(0, 0));
    RacedHits();
  }

  /** The session taken out then fails to be built, while a third packet has taken the key. */
  function Failing(): State {
    State(map["k" := 2], [IDLE, Session("k", 2, false, true, 1), Session("k", 3, false, false, 0)],
          [Return(0), Done, FailDelete(1, false), Flow(2)], 1, 0, 0)
  }

  function Fails(): seq<Step> {
    [Go(1, true)] + ([Arrive("k")] + ([Go(3, true)] + [Go(3, true)])) + ([Go(2, false)] + [Go(2, true)])
  }

  /** The session being built is taken out, and a third packet takes the key. */
  lemma FailsStarts(s: State, u: State)
    requires s == Raced()
    requires u == State(map["k" := 2], [IDLE, Session("k", 2, false, false, 0), Session("k", 3, false, false, 0)],
                        [Return(0), Done, Flow(1), Flow(2)], 1, 0, 0)
    ensures Follows(s, [Go(1, true)] + ([Arrive("k")] + ([Go(3, true)] + [Go(3, true)])), u)
  {
    var a := State(map[], [IDLE, Session("k", 2, false, false, 0)], [Return(0), Done, Flow(1)], 1, 0, 0);
    var b := Arrived(a, "k");
    Deletes(s, 1, 0, false);
    Arrives(a, "k");
    Stores(b, 3, "k");
    Join(a, [Arrive("k")], b, [Go(3, true)] + [Go(3, true)], u);
    Join(s, [Go(1, true)], a, [Arrive("k")] + ([Go(3, true)] + [Go(3, true)]), u);
  }

  lemma FailsRuns()
    ensures Follows(Raced(), Fails(), Failing())
  {
    var c := State(map["k" := 2], [IDLE, Session("k", 2, false, false, 0), Session("k", 3, false, false, 0)],
                   [Return(0), Done, Flow(1), Flow(2)], 1, 0, 0);
    FailsStarts(Raced(), c);
    BuildFails(c, 2, 1, Failing());
    Join(Raced(), [Go(1, true)] + ([Arrive("k")] + ([Go(3, true)] + [Go(3, true)])), c, [Go(2, false)] + [Go(2, true)],
         Failing());
  }

  lemma FlowFails(s: State, t: nat, id: nat)
    requires t < |s.threads| && s.threads[t] == Flow(id)
    ensures Follows(s, [Go(t, false)], s.(threads := s.threads[t := FailClose(id, false)]))
  {
    One(s, Go(t, false));
  }

  lemma FailCloses(s: State, t: nat, id: nat)
    requires t < |s.threads| && s.threads[t] == FailClose(id, false) && id < |s.sessions|
    ensures Follows(s, [Go(t, true)],
                    s.(sessions := s.sessions[id := s.sessions[id].(err := true, closes := s.sessions[id].closes + 1)],
                       threads := s.threads[t := FailDelete(id, false)]))
  {
    One(s, Go(t, true));
  }

  /** An owner over its traffic gives up. */
  lemma BuildFails(s: State, t: nat, id: nat, u: State)
    requires t < |s.threads| && s.threads[t] == Flow(id) && id < |s.sessions|
    requires u == s.(sessions := s.sessions[id := s.sessions[id].(err := true, closes := s.sessions[id].closes + 1)],
                     threads := s.threads[t := FailDelete(id, false)])
    ensures Follows(s, [Go(t, false)] + [Go(t, true)], u)
  {
    var a := s.(threads := s.threads[t := FailClose(id, false)]);
    FlowFails(s, t, id);
    FailCloses(a, t, id);
    assert a.threads[t := FailDelete(id, false)] == s.threads[t := FailDelete(id, false)];
    Join(s, [Go(t, false)], a, [Go(t, true)], u);
  }

  lemma FailingHits()
    ensures TakesOut(Failing(), 2, 2) && Failing().threads[2].FailDelete?
  {
  }

  /** So `failBuild` can take out another session too. */
  lemma FailedBuildCanHit()
    ensures exists run: seq<Step>, u: State, t: nat, id: nat ::
      Follows(Start(0, 0), run, u) && TakesOut(u, t, id) && u.threads[t].FailDelete?
  {
    RaceRuns(Start(0, 0));
    FailsRuns();
    Join(Start(0, 0), Race(), Raced(), Fails(), Failing());
    FailingHits();
  }
}
