/** Putting runs of the UDP session protocol together. */
module UdpRuns {
  import opened Common
  import opened UdpProxy
  import opened UdpInvariants

  /** Thread `t` takes step `m`. */
  predicate Moves(s: State, run: seq<Step>, m: nat, t: nat)
    requires m < |run|
  {
    run[m].Go? && run[m].t == t && Enabled(At(s, run, m), run[m])
  }

  predicate EnabledAt(s: State, run: seq<Step>, m: nat)
    requires m < |run|
  {
    Enabled(At(s, run, m), run[m])
  }

  /** Every step is enabled when it is taken. */
  predicate Legal(s: State, run: seq<Step>) { forall m | 0 <= m < |run| :: EnabledAt(s, run, m) }

  /** Every step of the run is enabled, and the run ends in `u`. */
  predicate Follows(s: State, run: seq<Step>, u: State) {
    Legal(s, run) && At(s, run, |run|) == u
  }

  /** Nobody else changes the counter. */
  predicate Own(run: seq<Step>) { forall m | 0 <= m < |run| :: !run[m].Others? }

  lemma {:induction false} AtPrefix(s: State, run: seq<Step>, more: seq<Step>, n: nat)
    requires n <= |run|
    ensures At(s, run + more, n) == At(s, run, n)
  {
    if n > 0 { AtPrefix(s, run, more, n - 1); }
  }

  lemma {:induction false} AtSuffix(s: State, run: seq<Step>, more: seq<Step>, n: nat)
    requires n <= |more|
    ensures At(s, run + more, |run| + n) == At(At(s, run, |run|), more, n)
  {
    if n == 0 { AtPrefix(s, run, more, |run|); } else { AtSuffix(s, run, more, n - 1); }
  }

  lemma {:induction false} Nothing(s: State)
    ensures Follows(s, [], s)
  {
  }

  lemma {:induction false} Same(s: State, t: State, a: Step, b: Step)
    requires s == t && a == b && Enabled(s, a)
    ensures Enabled(t, b)
  {
  }

  lemma {:induction false} JoinLeft(s: State, run: seq<Step>, more: seq<Step>, m: nat)
    requires m < |run| && EnabledAt(s, run, m)
    ensures EnabledAt(s, run + more, m)
  {
    AtPrefix(s, run, more, m);
    Same(At(s, run, m), At(s, run + more, m), run[m], (run + more)[m]);
  }

  lemma {:induction false} JoinRight(s: State, run: seq<Step>, more: seq<Step>, m: nat)
    requires m < |more| && EnabledAt(At(s, run, |run|), more, m)
    ensures EnabledAt(s, run + more, |run| + m)
  {
    AtSuffix(s, run, more, m);
    Same(At(At(s, run, |run|), more, m), At(s, run + more, |run| + m), more[m], (run + more)[|run| + m]);
  }

  lemma {:induction false} JoinLegal(s: State, run: seq<Step>, more: seq<Step>)
    requires Legal(s, run) && Legal(At(s, run, |run|), more)
    ensures Legal(s, run + more)
  {
    forall m | 0 <= m < |run + more| ensures EnabledAt(s, run + more, m) {
      if m < |run| { JoinLeft(s, run, more, m); } else { JoinRight(s, run, more, m - |run|); }
    }
  }

  lemma {:induction false} Join(s: State, run: seq<Step>, u: State, more: seq<Step>, v: State)
    requires Follows(s, run, u) && Follows(u, more, v)
    ensures Follows(s, run + more, v)
  {
    JoinLegal(s, run, more);
    AtSuffix(s, run, more, |more|);
  }

  lemma {:induction false} One(s: State, a: Step)
    requires Enabled(s, a)
    ensures Follows(s, [a], Do(s, a))
  {
    assert At(s, [a], 0) == s;
    assert At(s, [a], 1) == Do(s, a);
  }

  /** One more step. */
  lemma {:induction false} Then(s: State, run: seq<Step>, u: State, a: Step)
    requires Follows(s, run, u) && Enabled(u, a)
    ensures Follows(s, run + [a], Do(u, a))
  {
    One(u, a);
    Join(s, run, u, [a], Do(u, a));
  }

  lemma {:induction false} RunKeepsInv(s: State, run: seq<Step>, n: nat)
    requires Inv(s) && n <= |run|
    ensures Inv(At(s, run, n))
  {
    forall u, a | Inv(u) ensures Inv(Try(u, a)) { TryInv(u, a); }
    Induct(u => Inv(u), (u, a) => true, s, run, n);
  }

  // ----- A packet under a free key -----

  /** A packet has come in: a thread is about to look its key up. */
  function Arrived(s: State, key: string): State { s.(threads := s.threads + [Load(key)]) }

  /** Its thread has stored a session and passed the comparison with the limit. */
  function Admitted(s: State, t: nat, key: string): State
    requires t < |s.threads|
  {
    s.(addrs := s.addrs[key := |s.sessions|], sessions := s.sessions + [Session(key, t, false, false, 0)],
       threads := s.threads[t := Charge(|s.sessions|)])
  }

  function Admit(t: nat): seq<Step> { [Go(t, true)] + [Go(t, true)] + [Go(t, true)] + [Go(t, true)] }

  lemma Stores(s: State, t: nat, key: string)
    requires t < |s.threads| && s.threads[t] == Load(key) && key !in s.addrs
    ensures Follows(s, [Go(t, true)] + [Go(t, true)],
                    Admitted(s, t, key).(threads := s.threads[t := Flow(|s.sessions|)]))
  {
    var a := s.(threads := s.threads[t := Store(key)]);
    One(s, Go(t, true));
    assert DoGo(s, t, true) == a;
    Then(s, [Go(t, true)], a, Go(t, true));
    assert a.threads[t := Flow(|s.sessions|)] == s.threads[t := Flow(|s.sessions|)];
  }

  lemma Passes(s: State, t: nat, id: nat)
    requires t < |s.threads| && s.threads[t] == Flow(id) && (s.max == 0 || s.conns < s.max)
    ensures Follows(s, [Go(t, true)] + [Go(t, true)], s.(threads := s.threads[t := Charge(id)]))
  {
    var a := s.(threads := s.threads[t := Limit(id)]);
    One(s, Go(t, true));
    assert DoGo(s, t, true) == a;
    Then(s, [Go(t, true)], a, Go(t, true));
    assert a.threads[t := Charge(id)] == s.threads[t := Charge(id)];
  }

  /** A packet under a free key, while there is room, gets its owner past the comparison. */
  lemma Admits(s: State, t: nat, key: string)
    requires t < |s.threads| && s.threads[t] == Load(key) && key !in s.addrs && (s.max == 0 || s.conns < s.max)
    ensures Follows(s, Admit(t), Admitted(s, t, key)) && Own(Admit(t))
  {
    var a := Admitted(s, t, key).(threads := s.threads[t := Flow(|s.sessions|)]);
    var two := [Go(t, true)] + [Go(t, true)];
    Stores(s, t, key);
    Passes(a, t, |s.sessions|);
    assert a.(threads := a.threads[t := Charge(|s.sessions|)]) == Admitted(s, t, key);
    Join(s, two, a, two, Admitted(s, t, key));
    assert two + two == Admit(t);
  }

  lemma Arrives(s: State, key: string)
    ensures Follows(s, [Arrive(key)], Arrived(s, key))
  {
    One(s, Arrive(key));
  }

  // ----- From the comparison to serving -----

  lemma Charges(s: State, t: nat, id: nat)
    requires t < |s.threads| && s.threads[t] == Charge(id)
    ensures Follows(s, [Go(t, true)], s.(conns := s.conns + 1, threads := s.threads[t := Build(id)]))
  {
    One(s, Go(t, true));
  }

  /** The owner of session `id` has built it and serves it. */
  function Serving(s: State, t: nat, id: nat): State
    requires t < |s.threads| && id < |s.sessions|
  {
    s.(conns := s.conns + 1, threads := s.threads[t := Serve(id)],
       sessions := s.sessions[id := s.sessions[id].(target := true, closes := s.sessions[id].closes + 1)])
  }

  function Build3(t: nat): seq<Step> { [Go(t, true)] + [Go(t, true)] + [Go(t, true)] }

  lemma Builds(s: State, t: nat, id: nat)
    requires t < |s.threads| && s.threads[t] == Charge(id) && id < |s.sessions|
    ensures Follows(s, Build3(t), Serving(s, t, id))
  {
    var a := s.(conns := s.conns + 1, threads := s.threads[t := Build(id)]);
    var b := a.(threads := a.threads[t := Ready(id)], sessions := a.sessions[id := a.sessions[id].(target := true)]);
    Charges(s, t, id);
    BuildsTarget(a, t, id);
    Join(s, [Go(t, true)], a, [Go(t, true)], b);
    ClosesReady(b, t, id, Serving(s, t, id));
    Join(s, [Go(t, true)] + [Go(t, true)], b, [Go(t, true)], Serving(s, t, id));
  }

  lemma BuildsTarget(s: State, t: nat, id: nat)
    requires t < |s.threads| && s.threads[t] == Build(id) && id < |s.sessions|
    ensures Follows(s, [Go(t, true)], s.(threads := s.threads[t := Ready(id)],
                                         sessions := s.sessions[id := s.sessions[id].(target := true)]))
  {
    One(s, Go(t, true));
  }

  lemma ClosesReady(s: State, t: nat, id: nat, u: State)
    requires t < |s.threads| && s.threads[t] == Ready(id) && id < |s.sessions|
    requires u == s.(threads := s.threads[t := Serve(id)],
                     sessions := s.sessions[id := s.sessions[id].(closes := s.sessions[id].closes + 1)])
    ensures Follows(s, [Go(t, true)], u)
  {
    One(s, Go(t, true));
  }

  /** A packet under a free key, up to a session that is served. */
  function Open(t: nat): seq<Step> { Admit(t) + Build3(t) }

  function Opened(s: State, t: nat, key: string): State
    requires t < |s.threads|
  {
    s.(addrs := s.addrs[key := |s.sessions|], sessions := s.sessions + [Session(key, t, true, false, 1)],
       threads := s.threads[t := Serve(|s.sessions|)], conns := s.conns + 1)
  }

  lemma Opens(s: State, t: nat, key: string)
    requires t < |s.threads| && s.threads[t] == Load(key) && key !in s.addrs && (s.max == 0 || s.conns < s.max)
    ensures Follows(s, Open(t), Opened(s, t, key))
  {
    var a, id := Admitted(s, t, key), |s.sessions|;
    Admits(s, t, key);
    Builds(a, t, id);
    assert Serving(a, t, id) == Opened(s, t, key);
    Join(s, Admit(t), a, Build3(t), Opened(s, t, key));
  }

  // ----- Removing a session -----

  /** The comparison of a thread that finds its session in the map. */
  lemma Compares(s: State, t: nat, id: nat, owner: bool)
    requires t < |s.threads| && s.threads[t] == Compare(id, owner) && Stored(s, id)
    ensures Follows(s, [Go(t, true)], s.(threads := s.threads[t := Delete(id, owner)]))
  {
    One(s, Go(t, true));
  }

  lemma Deletes(s: State, t: nat, id: nat, owner: bool)
    requires t < |s.threads| && s.threads[t] == Delete(id, owner)
    ensures Follows(s, [Go(t, true)],
                    s.(addrs := s.addrs - {KeyOf(s, id)}, threads := s.threads[t := After(id, owner)]))
  {
    One(s, Go(t, true));
  }

  /** The sweeper picks the session under a key. */
  lemma Sweeps(s: State, key: string)
    requires key in s.addrs && HasTarget(s, s.addrs[key])
    ensures Follows(s, [Sweep(key)], s.(threads := s.threads + [Compare(s.addrs[key], false)]))
  {
    One(s, Sweep(key));
  }

  /** The owner stops serving. */
  lemma Stops(s: State, t: nat, id: nat)
    requires t < |s.threads| && s.threads[t] == Serve(id)
    ensures Follows(s, [Go(t, false)], s.(threads := s.threads[t := Compare(id, true)]))
  {
    One(s, Go(t, false));
  }
}
