/** Streams of a source: the owner of a session uses one stream to the client, and a source should
    have no more than one (nps-master/server/proxy/udp.go). */
module UdpStreams {
  import opened Common
  import opened UdpProxy
  import opened UdpInvariants
  import opened UdpRuns
  import opened UdpRemoval

  /** The owner is opening a stream or using it. */
  predicate Active(pc: Pc) { pc.Build? || pc.Ready? || pc.Serve? }

  /** Threads `t` and `u` both have a stream for the same source. */
  predicate TwoStreams(s: State, t: nat, u: nat) {
    && t < |s.threads| && u < |s.threads| && t != u && Active(s.threads[t]) && Active(s.threads[u])
    && KeyOf(s, s.threads[t].id) == KeyOf(s, s.threads[u].id)
  }

  ghost predicate HasSecond(s: State, t: nat) { exists u :: TwoStreams(s, t, u) }

  /** Not past its stream yet. */
  predicate Early(pc: Pc) { pc.Load? || pc.Store? || pc.Flow? || pc.Limit? || pc.Charge? || Active(pc) }

  /** Step `j` takes session `id` out of the map while its owner has not finished with it, and it
      is not the owner's step. */
  predicate Evicted(s: State, run: seq<Step>, j: nat, id: nat)
    requires j < |run|
  {
    && Loses(s, run, j, id) && run[j].Go?
    && var u := At(s, run, j);
       var o := u.sessions[id].owner;
       run[j].t != o && o < |u.threads| && HasId(u.threads[o]) && u.threads[o].id == id && Early(u.threads[o])
  }

  /** The owner of session `id`, evicted at some step before, has a stream all the same. */
  ghost predicate Orphaned(s: State, run: seq<Step>, n: nat, t: nat)
    requires n <= |run|
  {
    && t < |At(s, run, n).threads| && Active(At(s, run, n).threads[t])
    && exists j :: 0 <= j < n && Evicted(s, run, j, At(s, run, n).threads[t].id)
  }

  // ----- Owners do not go back -----

  lemma StepEarly(s: State, a: Step, t: nat)
    requires Enabled(s, a) && t < |s.threads|
    ensures t < |Do(s, a).threads|
    ensures Early(Do(s, a).threads[t]) ==> Early(s.threads[t])
    ensures Early(Do(s, a).threads[t]) && HasId(s.threads[t]) ==>
              HasId(Do(s, a).threads[t]) && Do(s, a).threads[t].id == s.threads[t].id
  {
    if a.Go? { GoFrame(s, a.t, a.ok); }
  }

  lemma {:induction false} WasEarly(s: State, run: seq<Step>, j: nat, n: nat, t: nat)
    requires j <= n <= |run| && t < |At(s, run, j).threads|
    ensures t < |At(s, run, n).threads|
    ensures Early(At(s, run, n).threads[t]) ==> Early(At(s, run, j).threads[t])
    ensures Early(At(s, run, n).threads[t]) && HasId(At(s, run, j).threads[t]) ==>
              HasId(At(s, run, n).threads[t]) && At(s, run, n).threads[t].id == At(s, run, j).threads[t].id
    decreases n
  {
    if j < n {
      WasEarly(s, run, j, n - 1, t);
      var u := At(s, run, n - 1);
      if Enabled(u, run[n - 1]) { StepEarly(u, run[n - 1], t); }
    }
  }

  /** Sessions leave the map only by deletions, whose threads are finished then. */
  lemma LosesByDeleting(s: State, a: Step, id: nat)
    requires Stored(s, id) && !Stored(Try(s, a), id)
    ensures Enabled(s, a) && a.Go? && Deleting(s.threads[a.t])
    ensures a.t < |Try(s, a).threads| && !Early(Try(s, a).threads[a.t])
  {
    if Enabled(s, a) && a.Go? {
      GoSessions(s, a.t, a.ok);
      StepKeepsKey(s, a, id);
    }
  }

  lemma {:induction false} OwnerStays(s: State, run: seq<Step>, j: nat, n: nat, id: nat)
    requires j <= n <= |run| && id < |At(s, run, j).sessions|
    ensures id < |At(s, run, n).sessions| && At(s, run, n).sessions[id].owner == At(s, run, j).sessions[id].owner
    decreases n
  {
    if j < n {
      OwnerStays(s, run, j, n - 1, id);
      var u := At(s, run, n - 1);
      if Enabled(u, run[n - 1]) { StepKeepsOwner(u, run[n - 1], id); }
    }
  }

  lemma StepKeepsOwner(s: State, a: Step, id: nat)
    requires Enabled(s, a) && id < |s.sessions|
    ensures id < |Do(s, a).sessions| && Do(s, a).sessions[id].owner == s.sessions[id].owner
  {
    if a.Go? {
      GoSessions(s, a.t, a.ok);
      if HasId(s.threads[a.t]) && s.threads[a.t].id < |s.sessions| { GoOwn(s, a.t, a.ok); }
    }
  }

  // ----- Exactly when a source has two streams -----

  /** An owner with a stream whose session is not in the map has been evicted. */
  lemma MissingIsOrphaned(conns: int, max: nat, run: seq<Step>, n: nat, t: nat)
    requires n <= |run| && t < |At(Start(conns, max), run, n).threads|
    requires Active(At(Start(conns, max), run, n).threads[t])
    requires !Stored(At(Start(conns, max), run, n), At(Start(conns, max), run, n).threads[t].id)
    ensures Orphaned(Start(conns, max), run, n, t)
  {
    var s := Start(conns, max);
    var id := At(s, run, n).threads[t].id;
    RunThread(conns, max, run, n, t);
    var j := LostSomewhere(s, run, n, id);
    LostIsEvicted(conns, max, run, j, n, t, id);
  }

  lemma LostIsEvicted(conns: int, max: nat, run: seq<Step>, j: nat, n: nat, t: nat, id: nat)
    requires j < n <= |run| && t < |At(Start(conns, max), run, n).threads|
    requires id < |At(Start(conns, max), run, n).sessions|
    requires Active(At(Start(conns, max), run, n).threads[t]) && At(Start(conns, max), run, n).threads[t].id == id
    requires At(Start(conns, max), run, n).sessions[id].owner == t && Loses(Start(conns, max), run, j, id)
    ensures Evicted(Start(conns, max), run, j, id)
  {
    var s := Start(conns, max);
    RunSession(conns, max, run, j, id);
    OwnerStays(s, run, j, n, id);
    OwnerWasAtIt(s, run, j, n, t, id);
    NotOwnStep(s, run, j, n, t, id);
  }

  /** An owner with a stream was at its session when the session was lost. */
  lemma OwnerWasAtIt(s: State, run: seq<Step>, j: nat, n: nat, t: nat, id: nat)
    requires j < n <= |run| && id < |At(s, run, j).sessions| && SessionOk(At(s, run, j), id)
    requires At(s, run, j).sessions[id].owner == t
    requires t < |At(s, run, n).threads| && Active(At(s, run, n).threads[t]) && At(s, run, n).threads[t].id == id
    ensures var u := At(s, run, j);
      t < |u.threads| && HasId(u.threads[t]) && u.threads[t].id == id && Early(u.threads[t])
  {
    WasEarly(s, run, j, n, t);
  }

  lemma LateStaysLate(s: State, run: seq<Step>, j: nat, n: nat, t: nat)
    requires j <= n <= |run| && t < |At(s, run, j).threads| && !Early(At(s, run, j).threads[t])
    ensures t < |At(s, run, n).threads| && !Active(At(s, run, n).threads[t])
  {
    WasEarly(s, run, j, n, t);
  }

  lemma NotOwnStep(s: State, run: seq<Step>, j: nat, n: nat, t: nat, id: nat)
    requires j < n <= |run| && Loses(s, run, j, id)
    requires t < |At(s, run, n).threads| && Active(At(s, run, n).threads[t])
    ensures run[j].Go? && run[j].t != t
  {
    LosesByDeleting(At(s, run, j), run[j], id);
    LateStaysLate(s, run, j + 1, n, run[j].t);
  }

  /** Of two owners with a stream for one source, one was evicted: by somebody else, and while it
      was building or serving. */
  lemma SecondStreamNeedsEviction(conns: int, max: nat, run: seq<Step>, n: nat, t: nat, u: nat)
    requires n <= |run| && TwoStreams(At(Start(conns, max), run, n), t, u)
    ensures Orphaned(Start(conns, max), run, n, t) || Orphaned(Start(conns, max), run, n, u)
  {
    var w := At(Start(conns, max), run, n);
    RunThread(conns, max, run, n, t);
    RunThread(conns, max, run, n, u);
    if Stored(w, w.threads[t].id) {
      MissingIsOrphaned(conns, max, run, n, u);
    } else {
      MissingIsOrphaned(conns, max, run, n, t);
    }
  }

  /** So where nobody evicts a session whose owner is still at it, a source has one stream. */
  lemma OneStreamPerSource(conns: int, max: nat, run: seq<Step>, n: nat, t: nat, u: nat)
    requires n <= |run| && forall j: nat, id: nat | j < n :: !Evicted(Start(conns, max), run, j, id)
    ensures !TwoStreams(At(Start(conns, max), run, n), t, u)
  {
    if TwoStreams(At(Start(conns, max), run, n), t, u) { SecondStreamNeedsEviction(conns, max, run, n, t, u); }
  }

  /** Somebody else took a session of the source out of the map while its owner was at it, and
      that owner is still not finished. */
  ghost predicate EvictedBefore(s: State, run: seq<Step>, m: nat, key: string)
    requires m <= |run|
  {
    exists j: nat, id: nat | j < m && id < |At(s, run, m).sessions| ::
      Evicted(s, run, j, id) && KeyOf(At(s, run, m), id) == key && Unfinished(At(s, run, m), id)
  }

  predicate Unfinished(s: State, id: nat)
    requires id < |s.sessions|
  {
    s.sessions[id].owner < |s.threads| && Early(s.threads[s.sessions[id].owner])
  }

  /** While no deletion has hit another session: when an owner gets its place, the source has
      another stream exactly when somebody else removed an earlier session of that source under
      its owner, and this owner is not finished. */
  lemma SecondStreamExactly(conns: int, max: nat, run: seq<Step>, m: nat, u: nat)
    requires m < |run| && Moves(Start(conns, max), run, m, u) && At(Start(conns, max), run, m).threads[u].Charge?
    requires forall k | 0 <= k < m :: !HitsAnother(At(Start(conns, max), run, k), run[k])
    ensures var s := Start(conns, max);
      var key := KeyOf(At(s, run, m), At(s, run, m).threads[u].id);
      HasSecond(Do(At(s, run, m), run[m]), u) <==> EvictedBefore(s, run, m, key)
  {
    var s := Start(conns, max);
    var w := At(s, run, m);
    ChargeStep(w, u, run[m].ok);
    RunThread(conns, max, run, m, u);
    if HasSecond(Do(w, run[m]), u) {
      var t :| TwoStreams(Do(w, run[m]), u, t);
      KeptUntil(conns, max, run, m);
      OtherIsEvicted(conns, max, run, m, u, t);
    }
    if EvictedBefore(s, run, m, KeyOf(w, w.threads[u].id)) { EvictedHasStream(conns, max, run, m, u); }
  }

  lemma EvictedHasStream(conns: int, max: nat, run: seq<Step>, m: nat, u: nat)
    requires m < |run| && Moves(Start(conns, max), run, m, u) && At(Start(conns, max), run, m).threads[u].Charge?
    requires forall k | 0 <= k < m :: !HitsAnother(At(Start(conns, max), run, k), run[k])
    requires EvictedBefore(Start(conns, max), run, m,
                           KeyOf(At(Start(conns, max), run, m), At(Start(conns, max), run, m).threads[u].id))
    ensures HasSecond(Do(At(Start(conns, max), run, m), run[m]), u)
  {
    var s := Start(conns, max);
    var w := At(s, run, m);
    var key := KeyOf(w, w.threads[u].id);
    var j: nat, x: nat :| j < m && x < |w.sessions| && Evicted(s, run, j, x) && KeyOf(w, x) == key && Unfinished(w, x);
    EvictedIsActive(conns, max, run, j, m, x);
    ChargeMakesTwo(w, u, run[m].ok, w.sessions[x].owner);
  }

  /** An owner that gets its place beside another one for the same source. */
  lemma ChargeMakesTwo(s: State, u: nat, ok: bool, t: nat)
    requires Enabled(s, Go(u, ok)) && s.threads[u].Charge? && t < |s.threads| && Active(s.threads[t])
    requires KeyOf(s, s.threads[t].id) == KeyOf(s, s.threads[u].id)
    ensures HasSecond(Do(s, Go(u, ok)), u)
  {
    ChargeStep(s, u, ok);
    assert TwoStreams(Do(s, Go(u, ok)), u, t);
  }

  lemma ChargeStep(s: State, u: nat, ok: bool)
    requires Enabled(s, Go(u, ok)) && s.threads[u].Charge?
    ensures Do(s, Go(u, ok)) == s.(conns := s.conns + 1, threads := s.threads[u := Build(s.threads[u].id)])
  {
  }

  lemma OtherIsEvicted(conns: int, max: nat, run: seq<Step>, m: nat, u: nat, t: nat)
    requires m <= |run| && AllKept(At(Start(conns, max), run, m))
    requires u < |At(Start(conns, max), run, m).threads| && At(Start(conns, max), run, m).threads[u].Charge?
    requires t < |At(Start(conns, max), run, m).threads| && Active(At(Start(conns, max), run, m).threads[t])
    requires KeyOf(At(Start(conns, max), run, m), At(Start(conns, max), run, m).threads[t].id)
          == KeyOf(At(Start(conns, max), run, m), At(Start(conns, max), run, m).threads[u].id)
    ensures EvictedBefore(Start(conns, max), run, m,
                          KeyOf(At(Start(conns, max), run, m), At(Start(conns, max), run, m).threads[u].id))
  {
    var w := At(Start(conns, max), run, m);
    RunThread(conns, max, run, m, u);
    RunThread(conns, max, run, m, t);
    assert Kept(w, w.threads[u].id);
    MissingIsOrphaned(conns, max, run, m, t);
    assert Unfinished(w, w.threads[t].id);
  }

  /** Where no deletion has hit another session, the owner of an evicted one had its stream. */
  lemma EvictedIsActive(conns: int, max: nat, run: seq<Step>, j: nat, m: nat, id: nat)
    requires j < m <= |run| && Evicted(Start(conns, max), run, j, id)
    requires !HitsAnother(At(Start(conns, max), run, j), run[j])
    requires id < |At(Start(conns, max), run, m).sessions| && Unfinished(At(Start(conns, max), run, m), id)
    ensures var w := At(Start(conns, max), run, m);
      var o := w.sessions[id].owner;
      o < |w.threads| && Active(w.threads[o]) && w.threads[o].id == id
  {
    var s := Start(conns, max);
    var b, w := At(s, run, j), At(s, run, m);
    var o := b.sessions[id].owner;
    RunInv(conns, max, run, j);
    RunInv(conns, max, run, m);
    OwnerStays(s, run, j, m, id);
    LosesByDeleting(b, run[j], id);
    OwnDeletion(b, run[j].t, run[j].ok, id);
    WasEarly(s, run, j, m, o);
    WasActive(s, run, j, m, o);
  }

  /** A deletion that hits no other session is of its own, which then has a target. */
  lemma OwnDeletion(s: State, t: nat, ok: bool, id: nat)
    requires Inv(s) && Enabled(s, Go(t, ok)) && Deleting(s.threads[t]) && !HitsAnother(s, Go(t, ok))
    requires Stored(s, id) && !Stored(Do(s, Go(t, ok)), id) && s.sessions[id].owner != t
    requires s.sessions[id].owner < |s.threads|
    requires HasId(s.threads[s.sessions[id].owner]) && s.threads[s.sessions[id].owner].id == id
    requires Early(s.threads[s.sessions[id].owner])
    ensures Active(s.threads[s.sessions[id].owner])
  {
    assert ThreadOk(s, t) && ThreadOk(s, s.sessions[id].owner);
    GoSessions(s, t, ok);
    StepKeepsKey(s, Go(t, ok), id);
  }

  lemma StepActive(s: State, a: Step, t: nat)
    requires Enabled(s, a) && t < |s.threads| && Active(s.threads[t])
    requires t < |Do(s, a).threads| && Early(Do(s, a).threads[t])
    ensures Active(Do(s, a).threads[t])
  {
    if a.Go? { GoFrame(s, a.t, a.ok); }
  }

  lemma {:induction false} WasActive(s: State, run: seq<Step>, j: nat, n: nat, t: nat)
    requires j <= n <= |run| && t < |At(s, run, j).threads| && Active(At(s, run, j).threads[t])
    ensures t < |At(s, run, n).threads|
    ensures Early(At(s, run, n).threads[t]) ==> Active(At(s, run, n).threads[t])
    decreases n
  {
    if j < n {
      WasActive(s, run, j, n - 1, t);
      WasEarly(s, run, j, n - 1, t);
      var u := At(s, run, n - 1);
      if Enabled(u, run[n - 1]) {
        StepEarly(u, run[n - 1], t);
        if Early(Do(u, run[n - 1]).threads[t]) { StepActive(u, run[n - 1], t); }
      }
    }
  }

  // ----- A run with two streams -----

  lemma {:induction false} AtomicLeft(s: State, run: seq<Step>, more: seq<Step>, m: nat)
    requires m < |run| && AtomicAt(s, run, m)
    ensures AtomicAt(s, run + more, m)
  {
    AtPrefix(s, run, more, m);
    if m > 0 { AtPrefix(s, run, more, m - 1); }
  }

  lemma {:induction false} AtomicRight(s: State, run: seq<Step>, more: seq<Step>, m: nat)
    requires m < |more| && AtomicAt(At(s, run, |run|), more, m)
    ensures AtomicAt(s, run + more, |run| + m)
  {
    AtSuffix(s, run, more, m);
    assert (run + more)[|run| + m] == more[m];
    if m > 0 {
      AtSuffix(s, run, more, m - 1);
      assert (run + more)[|run| + m - 1] == more[m - 1];
    }
  }

  lemma {:induction false} AtomicJoin(s: State, run: seq<Step>, more: seq<Step>)
    requires Atomic(s, run) && Atomic(At(s, run, |run|), more)
    ensures Atomic(s, run + more)
  {
    forall m | 0 <= m < |run + more| ensures AtomicAt(s, run + more, m) {
      if m < |run| { AtomicLeft(s, run, more, m); } else { AtomicRight(s, run, more, m - |run|); }
    }
  }

  /** A run of one thread that is early at its end deletes nothing. */
  lemma {:induction false} EarlyRunIsAtomic(s: State, run: seq<Step>, t: nat)
    requires t < |s.threads| && forall m | 0 <= m < |run| :: run[m].Go? && run[m].t == t
    requires t < |At(s, run, |run|).threads| && Early(At(s, run, |run|).threads[t])
    ensures Atomic(s, run)
  {
    forall m | 0 <= m < |run| ensures AtomicAt(s, run, m) {
      ThreadStays(s, run, m, t);
      WasEarly(s, run, m, |run|, t);
    }
  }

  lemma {:induction false} ThreadStays(s: State, run: seq<Step>, n: nat, t: nat)
    requires n <= |run| && t < |s.threads|
    ensures t < |At(s, run, n).threads|
  {
    WasEarly(s, run, 0, n, t);
  }

  lemma OneIsAtomic(s: State, a: Step)
    requires !(a.Go? && a.t < |s.threads| && s.threads[a.t].Delete?)
    ensures Atomic(s, [a])
  {
    assert At(s, [a], 0) == s;
  }

  /** A run, ending in `u`, in which every deletion follows on its comparison. */
  predicate Calm(s: State, run: seq<Step>, u: State) { Follows(s, run, u) && Atomic(s, run) }

  lemma {:induction false} CalmJoin(s: State, run: seq<Step>, u: State, more: seq<Step>, v: State)
    requires Calm(s, run, u) && Calm(u, more, v)
    ensures Calm(s, run + more, v)
  {
    Join(s, run, u, more, v);
    AtomicJoin(s, run, more);
  }

  lemma OpensCalmly(s: State, t: nat, key: string)
    requires t == |s.threads| && key !in s.addrs && s.max == 0
    ensures Calm(s, [Arrive(key)] + Open(t), Opened(Arrived(s, key), t, key))
  {
    var a := Arrived(s, key);
    Arrives(s, key);
    Opens(a, t, key);
    OneIsAtomic(s, Arrive(key));
    EarlyRunIsAtomic(a, Open(t), t);
    CalmJoin(s, [Arrive(key)], a, Open(t), Opened(a, t, key));
  }

  lemma SweepsCalmly(s: State)
    requires s == State(map["k" := 0], [IDLE], [Serve(0)], 1, 0, 0)
    ensures Calm(s, [Sweep("k")] + ([Go(1, true)] + [Go(1, true)]), State(map[], [IDLE], [Serve(0), Done], 1, 0, 0))
  {
    var a := s.(threads := [Serve(0), Compare(0, false)]);
    var b := s.(threads := [Serve(0), Delete(0, false)]);
    var u := State(map[], [IDLE], [Serve(0), Done], 1, 0, 0);
    var two := [Go(1, true)] + [Go(1, true)];
    Sweeps(s, "k");
    OneIsAtomic(s, Sweep("k"));
    Compares(a, 1, 0, false);
    Deletes(b, 1, 0, false);
    Join(a, [Go(1, true)], b, [Go(1, true)], u);
    assert Atomic(a, two) by {
      assert At(a, two, 0) == a;
      assert Moves(a, two, 0, 1);
    }
    CalmJoin(s, [Sweep("k")], a, two, u);
  }

  lemma FirstOpened()
    ensures Opened(Arrived(Start(0, 0), "k"), 0, "k") == State(map["k" := 0], [IDLE], [Serve(0)], 1, 0, 0)
  {
  }

  lemma SecondOpened()
    ensures var u := Opened(Arrived(State(map[], [IDLE], [Serve(0), Done], 1, 0, 0), "k"), 2, "k");
      TwoStreams(u, 0, 2) && u.conns == 2
  {
  }

  /** A session is served; the sweeper removes it, in two adjacent steps; a packet takes the key:
      even where every deletion follows directly on its comparison, a source can have two
      streams and be charged twice. */
  lemma SecondStreamCanStart()
    ensures exists run: seq<Step>, u: State :: Calm(Start(0, 0), run, u) && TwoStreams(u, 0, 2) && u.conns == 2
  {
    OpensCalmly(Start(0, 0), 0, "k");
    FirstOpened();
    var u := SweepThenOpen(State(map["k" := 0], [IDLE], [Serve(0)], 1, 0, 0));
    CalmJoin(Start(0, 0), [Arrive("k")] + Open(0), State(map["k" := 0], [IDLE], [Serve(0)], 1, 0, 0), SweepOpen(), u);
  }

  function SweepOpen(): seq<Step> { [Sweep("k")] + ([Go(1, true)] + [Go(1, true)]) + ([Arrive("k")] + Open(2)) }

  lemma SweepThenOpen(s: State) returns (u: State)
    requires s == State(map["k" := 0], [IDLE], [Serve(0)], 1, 0, 0)
    ensures Calm(s, SweepOpen(), u) && TwoStreams(u, 0, 2) && u.conns == 2
  {
    var b := State(map[], [IDLE], [Serve(0), Done], 1, 0, 0);
    u := Opened(Arrived(b, "k"), 2, "k");
    SweepsCalmly(s);
    OpensCalmly(b, 2, "k");
    SecondOpened();
    CalmJoin(s, [Sweep("k")] + ([Go(1, true)] + [Go(1, true)]), b, [Arrive("k")] + Open(2), u);
  }
}
