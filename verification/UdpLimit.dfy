/** The connection limit of a client: `GetConn` compares and adds in two steps
    (nps-master/lib/file/obj.go), so it can be passed. */
module UdpLimit {
  import opened Common
  import opened UdpProxy
  import opened UdpInvariants
  import opened UdpRuns

  // ----- A run that passes the limit -----

  /** Two packets from different sources; both owners compare before either adds. */
  function Crowd(): seq<Step> {
    [Arrive("a")] + [Arrive("b")] + Admit(0) + Admit(1) + [Go(0, true)] + [Go(1, true)]
  }

  lemma CrowdWaits(s: State)
    requires s.max > s.conns && s.addrs == map[] && s.sessions == [] && s.threads == []
    ensures exists u: State ::
      && Follows(s, [Arrive("a")] + [Arrive("b")] + Admit(0) + Admit(1), u)
      && u.threads == [Charge(0), Charge(1)] && u.conns == s.conns && u.others == s.others && u.max == s.max
  {
    var a := Arrived(s, "a");
    var b := Arrived(a, "b");
    var c := Admitted(b, 0, "a");
    var d := Admitted(c, 1, "b");
    Arrives(s, "a");
    Arrives(a, "b");
    Join(s, [Arrive("a")], a, [Arrive("b")], b);
    Admits(b, 0, "a");
    Join(s, [Arrive("a")] + [Arrive("b")], b, Admit(0), c);
    Admits(c, 1, "b");
    Join(s, [Arrive("a")] + [Arrive("b")] + Admit(0), c, Admit(1), d);
  }

  /** With a limit of one connection, the run ends with two. */
  lemma LimitCanBePassed()
    ensures exists u: State ::
      && Follows(Start(0, 1), Crowd(), u)
      && u.max == 1 && u.conns == 2 && u.others == 0 && u.threads == [Build(0), Build(1)]
  {
    var s := Start(0, 1);
    var before := [Arrive("a")] + [Arrive("b")] + Admit(0) + Admit(1);
    CrowdWaits(s);
    var d :| Follows(s, before, d) && d.threads == [Charge(0), Charge(1)]
             && d.conns == 0 && d.others == 0 && d.max == 1;
    var u := BothCharge(d);
    Join(s, before, d, [Go(0, true)] + [Go(1, true)], u);
    assert before + ([Go(0, true)] + [Go(1, true)]) == Crowd();
  }

  lemma BothCharge(s: State) returns (u: State)
    requires s.threads == [Charge(0), Charge(1)]
    ensures Follows(s, [Go(0, true)] + [Go(1, true)], u)
    ensures u == s.(conns := s.conns + 2, threads := [Build(0), Build(1)])
  {
    var a := s.(conns := s.conns + 1, threads := s.threads[0 := Build(0)]);
    Charges(s, 0, 0);
    Charges(a, 1, 1);
    u := a.(conns := a.conns + 1, threads := a.threads[1 := Build(1)]);
    Join(s, [Go(0, true)], a, [Go(1, true)], u);
  }

  // ----- Which steps pass it -----

  /** Step `m` takes the counter over the limit. */
  predicate Exceeds(s: State, run: seq<Step>, m: nat)
    requires m < |run|
  {
    At(s, run, m).conns <= s.max < At(s, run, m + 1).conns
  }

  /** Step `i` is the comparison of thread `t`, and it found room. */
  predicate FindsRoom(s: State, run: seq<Step>, i: nat, t: nat)
    requires i < |run|
  {
    Moves(s, run, i, t) && At(s, run, i).threads[t].Limit? && At(s, run, i).conns < s.max
  }

  lemma StepConns(s: State, a: Step)
    requires Enabled(s, a)
    ensures Do(s, a).max == s.max && (!a.Others? ==> Do(s, a).others == s.others)
    ensures !a.Others? && !(a.Go? && s.threads[a.t].Charge?) ==> Do(s, a).conns <= s.conns
    ensures a.Go? && s.threads[a.t].Charge? ==> Do(s, a).conns == s.conns + 1
  {
  }

  lemma {:induction false} MaxStays(s: State, run: seq<Step>, n: nat)
    requires n <= |run|
    ensures At(s, run, n).max == s.max
  {
    if n > 0 {
      MaxStays(s, run, n - 1);
      if Enabled(At(s, run, n - 1), run[n - 1]) { StepConns(At(s, run, n - 1), run[n - 1]); }
    }
  }

  /** Only a comparison that finds room leads to an addition. */
  lemma ToCharge(s: State, a: Step, t: nat)
    requires Enabled(s, a) && t < |Do(s, a).threads| && Do(s, a).threads[t].Charge?
    ensures t < |s.threads|
    ensures s.threads[t].Charge? || (a.Go? && a.t == t && s.threads[t].Limit? && (s.max == 0 || s.conns < s.max))
  {
    if a.Go? { GoFrame(s, a.t, a.ok); }
  }

  lemma {:induction false} RoomWasFound(s: State, run: seq<Step>, m: nat, t: nat) returns (i: nat)
    requires m <= |run| && s.threads == [] && s.max > 0
    requires t < |At(s, run, m).threads| && At(s, run, m).threads[t].Charge?
    ensures i < m && FindsRoom(s, run, i, t)
  {
    var u := At(s, run, m - 1);
    if Enabled(u, run[m - 1]) {
      ToCharge(u, run[m - 1], t);
      MaxStays(s, run, m - 1);
      if u.threads[t].Charge? { i := RoomWasFound(s, run, m - 1, t); } else { i := m - 1; }
    } else {
      i := RoomWasFound(s, run, m - 1, t);
    }
  }

  /** A step of ours passes the limit exactly when it is an addition and, since that thread's
      own comparison found room, the counter has risen to the limit. */
  lemma ExceedsExactly(conns: int, max: nat, run: seq<Step>, m: nat)
    requires m < |run| && max > 0 && !run[m].Others?
    ensures var s := Start(conns, max);
      Exceeds(s, run, m) <==>
      exists i, t | 0 <= i < m && 0 <= t ::
        Moves(s, run, m, t) && At(s, run, m).threads[t].Charge? && At(s, run, m).conns == max && FindsRoom(s, run, i, t)
  {
    var s := Start(conns, max);
    var u := At(s, run, m);
    MaxStays(s, run, m);
    if Enabled(u, run[m]) { StepConns(u, run[m]); }
    if Exceeds(s, run, m) {
      var i := RoomWasFound(s, run, m, run[m].t);
      assert Moves(s, run, m, run[m].t);
    }
  }

  /** Were comparing and adding in `GetConn` one step, and did nobody else add. */
  predicate AtomicLimit(s: State, run: seq<Step>) {
    && (forall m | 0 <= m < |run| && run[m].Others? :: run[m].delta <= 0)
    && (forall m | 0 <= m < |run| && run[m].Go? && Moves(s, run, m, run[m].t)
                   && At(s, run, m).threads[run[m].t].Charge? ::
          m > 0 && Moves(s, run, m - 1, run[m].t))
  }

  lemma LimitThenCharge(s: State, t: nat, ok: bool)
    requires Enabled(s, Go(t, ok)) && DoGo(s, t, ok).threads[t].Charge?
    ensures s.max == 0 || DoGo(s, t, ok).conns < s.max
  {
  }

  /** Then the counter never passes the limit, unless it was over it to begin with. */
  lemma AtomicLimitHolds(conns: int, max: nat, run: seq<Step>, n: nat)
    requires AtomicLimit(Start(conns, max), run) && n <= |run|
    ensures max > 0 && conns <= max ==> At(Start(conns, max), run, n).conns <= max
  {
    var s := Start(conns, max);
    if max > 0 && conns <= max {
      forall m | 0 <= m < n && At(s, run, m).conns <= max ensures Try(At(s, run, m), run[m]).conns <= max {
        MaxStays(s, run, m);
        ChargeIsUnderLimit(s, run, m);
      }
      InductAt((u: State) => u.conns <= max, s, run, n);
    }
  }

  /** A step that adds only where there is room stays within the limit. */
  lemma StaysUnder(s: State, a: Step)
    requires s.conns <= s.max && (a.Others? ==> a.delta <= 0)
    requires Enabled(s, a) && a.Go? && s.threads[a.t].Charge? ==> s.conns < s.max
    ensures Try(s, a).conns <= s.max
  {
    if Enabled(s, a) { StepConns(s, a); }
  }

  lemma ChargeIsUnderLimit(s: State, run: seq<Step>, m: nat)
    requires AtomicLimit(s, run) && s.threads == [] && m < |run|
    requires s.max > 0 && At(s, run, m).max == s.max && At(s, run, m).conns <= s.max
    ensures Try(At(s, run, m), run[m]).conns <= s.max
  {
    if run[m].Go? && Moves(s, run, m, run[m].t) && At(s, run, m).threads[run[m].t].Charge? {
      JustCompared(s, run, m - 1, run[m].t);
    }
    StaysUnder(At(s, run, m), run[m]);
  }

  lemma JustCompared(s: State, run: seq<Step>, m: nat, t: nat)
    requires m < |run| && Moves(s, run, m, t)
    requires t < |At(s, run, m + 1).threads| && At(s, run, m + 1).threads[t].Charge?
    ensures At(s, run, m + 1).max == 0 || At(s, run, m + 1).conns < At(s, run, m + 1).max
  {
    StepConns(At(s, run, m), run[m]);
    LimitThenCharge(At(s, run, m), t, run[m].ok);
  }

  // ----- From which states it can be passed -----

  predicate SomeCharging(s: State) { exists t :: 0 <= t < |s.threads| && s.threads[t].Charge? }

  /** The limit can be passed without anybody else's help. */
  ghost predicate CanExceed(s: State) {
    exists run: seq<Step>, u: State :: Own(run) && Follows(s, run, u) && u.conns > u.max
  }

  /** Everybody else fills the limit, and nobody is past the comparison. */
  predicate Saturated(s: State) { s.others >= s.max && s.conns <= s.max && !SomeCharging(s) }

  lemma StaysSaturated(s: State, a: Step)
    requires Inv(s) && Saturated(s) && s.max > 0 && Enabled(s, a) && !a.Others?
    ensures Saturated(Do(s, a)) && Do(s, a).max == s.max
  {
    var u := Do(s, a);
    StepConns(s, a);
    assert s.conns == s.others + |ChargedThreads(s)| >= s.max;
    if SomeCharging(u) {
      var t :| 0 <= t < |u.threads| && u.threads[t].Charge?;
      ToCharge(s, a, t);
    }
  }

  lemma {:induction false} SaturatedRun(s: State, run: seq<Step>, n: nat)
    requires Inv(s) && Saturated(s) && s.max > 0 && Own(run) && n <= |run|
    ensures Saturated(At(s, run, n)) && At(s, run, n).max == s.max
  {
    if n > 0 {
      SaturatedRun(s, run, n - 1);
      RunKeepsInv(s, run, n - 1);
      if Enabled(At(s, run, n - 1), run[n - 1]) { StaysSaturated(At(s, run, n - 1), run[n - 1]); }
    }
  }

  /** A key that is not among `keys`. */
  lemma {:induction false} FreshKey(keys: set<string>) returns (key: string)
    ensures key !in keys
  {
    var n := LongerThanAll(keys);
    key := seq(n, i => 'k');
  }

  lemma {:induction false} LongerThanAll(keys: set<string>) returns (n: nat)
    ensures forall k | k in keys :: |k| < n
  {
    if keys == {} {
      n := 0;
    } else {
      var k :| k in keys;
      n := LongerThanAll(keys - {k});
      if |k| >= n { n := |k| + 1; }
    }
  }

  /** While there is room, one more owner can be brought past the comparison. */
  lemma OneMore(s: State) returns (run: seq<Step>, u: State, t: nat)
    requires s.max == 0 || s.conns < s.max
    ensures Own(run) && Follows(s, run, u) && t == |s.threads| && u.threads == s.threads + [Charge(|s.sessions|)]
    ensures u.conns == s.conns && u.others == s.others && u.max == s.max
  {
    var key := FreshKey(s.addrs.Keys);
    var a := Arrived(s, key);
    t := |s.threads|;
    u := Admitted(a, t, key);
    Arrives(s, key);
    Admits(a, t, key);
    run := [Arrive(key)] + Admit(t);
    Join(s, [Arrive(key)], a, Admit(t), u);
  }

  /** With one owner held past the comparison, others fill the limit; then it adds. */
  lemma {:induction false} Fills(s: State, t: nat) returns (run: seq<Step>, u: State)
    requires t < |s.threads| && s.threads[t].Charge? && s.max > 0 && s.conns <= s.max
    ensures Own(run) && Follows(s, run, u) && u.conns > u.max
    decreases s.max - s.conns
  {
    if s.conns == s.max {
      Charges(s, t, s.threads[t].id);
      run := [Go(t, true)];
      u := s.(conns := s.conns + 1, threads := s.threads[t := Build(s.threads[t].id)]);
    } else {
      var first, a, x := OneMore(s);
      var id := a.threads[x].id;
      var b := a.(conns := a.conns + 1, threads := a.threads[x := Build(id)]);
      Charges(a, x, id);
      Join(s, first, a, [Go(x, true)], b);
      var rest;
      rest, u := Fills(b, t);
      run := first + [Go(x, true)] + rest;
      Join(s, first + [Go(x, true)], b, rest, u);
    }
  }

  /** How far a charged owner is from giving its place back. */
  function Rest(pc: Pc): nat {
    match pc
    case Build(_) => 6
    case Ready(_) => 5
    case Serve(_) => 4
    case FailClose(_, _) => 3
    case FailDelete(_, _) => 2
    case Compare(_, _) => 3
    case Delete(_, _) => 2
    case Return(_) => 1
    case _ => 0
  }

  lemma Retires(s: State, t: nat)
    requires t < |s.threads| && Charged(s.threads[t])
    ensures Enabled(s, Go(t, false))
    ensures var u := Do(s, Go(t, false));
      && t < |u.threads| && u.others == s.others && u.max == s.max
      && if s.threads[t].Return? then u.conns == s.conns - 1
         else u.conns == s.conns && Charged(u.threads[t]) && Rest(u.threads[t]) < Rest(s.threads[t])
  {
  }

  /** A charged owner can always be brought to give its place back. */
  lemma {:induction false} GivesBack(s: State, t: nat) returns (run: seq<Step>, u: State)
    requires t < |s.threads| && Charged(s.threads[t])
    ensures Own(run) && Follows(s, run, u) && u.conns == s.conns - 1 && u.others == s.others && u.max == s.max
    decreases Rest(s.threads[t])
  {
    var a := Do(s, Go(t, false));
    Retires(s, t);
    One(s, Go(t, false));
    if s.threads[t].Return? {
      run, u := [Go(t, false)], a;
    } else {
      run, u := GivesBack(a, t);
      Join(s, [Go(t, false)], a, run, u);
      run := [Go(t, false)] + run;
    }
  }

  /** While there is room the limit can be passed. */
  lemma RoomCanExceed(s: State) returns (run: seq<Step>, u: State)
    requires s.max > 0 && s.conns < s.max
    ensures Own(run) && Follows(s, run, u) && u.conns > u.max
  {
    var first, a, t := OneMore(s);
    var rest;
    rest, u := Fills(a, t);
    run := first + rest;
    Join(s, first, a, rest, u);
  }

  lemma CrowdedCanExceed(s: State) returns (run: seq<Step>, u: State)
    requires Inv(s) && s.max > 0 && s.conns == s.max && s.others < s.max
    ensures Own(run) && Follows(s, run, u) && u.conns > u.max
  {
    assert ChargedThreads(s) != {};
    var t :| t in ChargedThreads(s);
    var first, a := GivesBack(s, t);
    var rest;
    rest, u := RoomCanExceed(a);
    run := first + rest;
    Join(s, first, a, rest, u);
  }

  lemma PossibleExceeds(s: State)
    requires Inv(s) && s.max > 0 && s.conns <= s.max && (s.others < s.max || SomeCharging(s))
    ensures CanExceed(s)
  {
    var run, u;
    if SomeCharging(s) {
      var t :| 0 <= t < |s.threads| && s.threads[t].Charge?;
      run, u := Fills(s, t);
    } else if s.conns < s.max {
      run, u := RoomCanExceed(s);
    } else {
      run, u := CrowdedCanExceed(s);
    }
  }

  /** From a reachable state within the limit, our own threads and packets can pass it exactly
      when everybody else leaves at least one place, or an owner is past the comparison. */
  lemma CanExceedExactly(conns: int, max: nat, run: seq<Step>, n: nat)
    requires n <= |run| && max > 0 && At(Start(conns, max), run, n).conns <= max
    ensures var s := At(Start(conns, max), run, n);
      CanExceed(s) <==> s.others < max || SomeCharging(s)
  {
    var s := At(Start(conns, max), run, n);
    RunInv(conns, max, run, n);
    MaxStays(Start(conns, max), run, n);
    if s.others < max || SomeCharging(s) {
      PossibleExceeds(s);
    } else if CanExceed(s) {
      var more, u :| Own(more) && Follows(s, more, u) && u.conns > u.max;
      SaturatedRun(s, more, |more|);
    }
  }
}
