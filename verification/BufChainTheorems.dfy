/** The promises of the chain, over every run of one producer and one consumer. */
module BufChainTheorems {
  import opened Common
  import opened BufRing
  import opened BufChain
  import opened BufChainProofs

  /** The arguments of the `pushHead` calls of a run, in order. */
  function Calls(run: seq<Step>): seq<int> {
    if run == [] then []
    else
      var before := Calls(run[..|run| - 1]);
      match run[|run| - 1]
      case Push(val) => before + [val]
      case _ => before
  }

  lemma {:induction false} ExecAppend(s: State, run: seq<Step>, st: Step)
    requires Exec(s, run + [st]).Some?
    ensures Exec(s, run).Some? && Enabled(Exec(s, run).value, st)
    ensures Exec(s, run + [st]) == Some(Do(Exec(s, run).value, st))
    decreases |run|
  {
    if run != [] {
      assert (run + [st])[1..] == run[1..] + [st];
      ExecAppend(Do(s, run[0]), run[1..], st);
    } else {
      assert run + [st] == [st] && [st][1..] == [];
    }
  }

  /** The running `pushHead` call has not been accepted yet. */
  predicate InCall(p: Producer) { !p.pc.PIdle? && !p.pc.PStore? && !p.pc.PClear? }

  predicate Accepted(s: State, calls: seq<int>) {
    calls == s.pushed + (if InCall(s.p) then [s.p.val] else [])
  }

  lemma StepAccepted(s: State, st: Step, calls: seq<int>)
    requires Enabled(s, st) && Accepted(s, calls)
    ensures Accepted(Do(s, st), if st.Push? then calls + [st.val] else calls)
  {
  }

  /** The chain accepts each pushed value once, in call order. */
  lemma {:induction false} CallsAreAccepted(size: nat, run: seq<Step>, s: State)
    requires Exec(Init(size), run) == Some(s)
    ensures Accepted(s, Calls(run))
    decreases |run|
  {
    if run != [] {
      var prev, st := run[..|run| - 1], run[|run| - 1];
      assert run == prev + [st];
      ExecAppend(Init(size), prev, st);
      CallsAreAccepted(size, prev, Exec(Init(size), prev).value);
      StepAccepted(Exec(Init(size), prev).value, st, Calls(prev));
    }
  }

  /** First in, first out: across ring wrap, index wrap and growth, the values returned are, in
      order, the first of the values pushed; the rest are in the queue (or in the running call). */
  lemma FifoRefinement(size: nat, run: seq<Step>, s: State)
    requires SizeOk(size) && Exec(Init(size), run) == Some(s)
    ensures s.popped <= Calls(run)
    ensures RingsOk(s) && LinksOk(s)
    ensures Calls(run) == s.popped + Content(s) + (if InCall(s.p) then [s.p.val] else [])
  {
    InitInv(size);
    ExecInv(Init(size), run);
    CallsAreAccepted(size, run, s);
  }

  /** `seen`, recorded at the load of a nil `next`, is the whole content of the queue. */
  lemma SeenIsContent(s: State)
    requires Inv(s) && s.c.pc.CNext? && s.rings[s.c.d].next == None
    ensures CRing(s) && CLoadNext(s).c.seen == Content(s)
  {
    RingsTaken(s);
    assert RingOk(s.rings[s.c.d], Storing(s, s.c.d), Adding(s, s.c.d));
    assert s.rings[s.tail..Linked(s)] == [s.rings[s.tail]];
    assert [s.rings[s.tail]][1..] == [];
    assert Remain([s.rings[s.tail]]) == s.rings[s.tail].items[s.rings[s.tail].taken..] + Remain([]);
  }

  /** The consumer has loaded a nil `next` and not reached a decision. */
  predicate Seeking(c: Consumer) { (c.pc.CLoad? || c.pc.CSlot? || c.pc.CTake?) && c.d2 == None }

  /** What the queue holds. */
  predicate Held(s: State, values: seq<int>) { RingsOk(s) && LinksOk(s) && Content(s) == values }

  lemma StepKeepsSeeking(s: State, st: Step)
    requires Enabled(s, st) && Seeking(Do(s, st).c) && !st.StCLoadNext?
    ensures Seeking(s.c) && Do(s, st).c.seen == s.c.seen && !st.Pop?
  {
  }

  lemma NextIsHeld(size: nat, run: seq<Step>, s: State)
    requires SizeOk(size) && Exec(Init(size), run) == Some(s) && Enabled(s, StCLoadNext) && Seeking(CLoadNext(s).c)
    ensures Held(s, CLoadNext(s).c.seen)
  {
    InitInv(size);
    ExecInv(Init(size), run);
    SeenIsContent(s);
  }

  /** The state before the last step of a run. */
  lemma LastStep(s: State, run: seq<Step>, u: State) returns (t: State)
    requires Exec(s, run) == Some(u) && run != []
    ensures Exec(s, run[..|run| - 1]) == Some(t) && Enabled(t, run[|run| - 1]) && u == Do(t, run[|run| - 1])
  {
    var prev, st := run[..|run| - 1], run[|run| - 1];
    assert run == prev + [st];
    ExecAppend(s, prev, st);
    t := Exec(s, prev).value;
  }

  /** A seeking consumer has just loaded `next`, or was seeking before with the same in mind. */
  lemma StepBack(size: nat, run: seq<Step>, s: State) returns (t: State)
    requires SizeOk(size) && Exec(Init(size), run) == Some(s) && run != [] && Seeking(s.c)
    ensures Exec(Init(size), run[..|run| - 1]) == Some(t)
    ensures Held(t, s.c.seen) || (Seeking(t.c) && t.c.seen == s.c.seen && run[|run| - 1] != Pop)
  {
    t := LastStep(Init(size), run, s);
    if run[|run| - 1].StCLoadNext? {
      NextIsHeld(size, run[..|run| - 1], t);
    } else {
      StepKeepsSeeking(t, run[|run| - 1]);
    }
  }

  lemma SeekingHasRun(size: nat, run: seq<Step>, s: State)
    requires Exec(Init(size), run) == Some(s) && Seeking(s.c)
    ensures run != []
  {
  }

  /** A consumer that has loaded a nil `next` did so in this call, and `seen` is what the queue
      held then. */
  lemma {:induction false} LoadedNext(size: nat, run: seq<Step>, s: State) returns (i: nat, u: State)
    requires SizeOk(size) && Exec(Init(size), run) == Some(s) && Seeking(s.c)
    ensures i < |run| && Exec(Init(size), run[..i]) == Some(u) && Held(u, s.c.seen)
    ensures forall j | i < j < |run| :: run[j] != Pop
    decreases |run|
  {
    SeekingHasRun(size, run, s);
    var prev := run[..|run| - 1];
    var t := StepBack(size, run, s);
    if Held(t, s.c.seen) {
      i, u := |prev|, t;
    } else {
      i, u := LoadedNext(size, prev, t);
      assert run[..i] == prev[..i];
    }
  }

  lemma EmptyMeansNothingSeen(s: State)
    requires Inv(s) && s.c.pc.CLoad? && CRing(s) && CLoadIdx(s).c.pc.CIdle?
    ensures s.c.d2 == None && s.c.seen == []
  {
    var r := s.rings[s.c.d];
    assert RingOk(r, Storing(s, s.c.d), Adding(s, s.c.d));
    EmptyFull(r, Storing(s, s.c.d), Adding(s, s.c.d));
  }

  /** A pop that reports an empty queue is right: during the call there was a moment when nothing
      was in the queue. */
  lemma EmptyPopIsRight(size: nat, run: seq<Step>, s: State)
    requires SizeOk(size) && Exec(Init(size), run) == Some(s)
    requires s.c.pc.CLoad? && CRing(s) && CLoadIdx(s).c.pc.CIdle?
    ensures exists i, u: State | 0 <= i < |run| ::
      && Exec(Init(size), run[..i]) == Some(u) && Held(u, [])
      && forall j | i < j < |run| :: run[j] != Pop
  {
    InitInv(size);
    ExecInv(Init(size), run);
    EmptyMeansNothingSeen(s);
    var i, u := LoadedNext(size, run, s);
  }

  /** The slot a successful claim hands to the producer is empty. */
  lemma ClaimedSlotIsEmpty(size: nat, run: seq<Step>, s: State)
    requires SizeOk(size) && Exec(Init(size), run) == Some(s)
    requires s.p.pc.PSwap? && PRing(s) && s.rings[s.p.d].headTail == s.p.ptrs
    ensures PTryClaim(s).p.slot < |s.rings[s.p.d].vals| && s.rings[s.p.d].vals[PTryClaim(s).p.slot] == Nil
  {
    InitInv(size);
    ExecInv(Init(size), run);
    ClaimRings(s);
  }

  /** The consumer's inner loop finds an empty slot only while the producer is between the
      claim of that slot and its store. */
  lemma SpinOnlyOnPendingStore(size: nat, run: seq<Step>, s: State)
    requires SizeOk(size) && Exec(Init(size), run) == Some(s) && s.c.pc.CSlot? && CRing(s)
    requires s.rings[s.c.d].vals[At(TailOf(s.c.ptrs), |s.rings[s.c.d].vals|)] == Nil
    ensures s.p.pc.PStore? && s.p.d == s.c.d
    ensures s.p.slot == At(TailOf(s.c.ptrs), |s.rings[s.c.d].vals|)
  {
    InitInv(size);
    ExecInv(Init(size), run);
    var r := s.rings[s.c.d];
    assert RingOk(r, Storing(s, s.c.d), Adding(s, s.c.d));
    AtWrap(r.taken, |r.vals|);
  }

  /** No index a thread holds is ever out of range, so no step of the model is cut off. */
  lemma IndicesInRange(size: nat, run: seq<Step>, s: State)
    requires SizeOk(size) && Exec(Init(size), run) == Some(s)
    ensures s.p.pc.PLoad? || s.p.pc.PSwap? || s.p.pc.PStore? || s.p.pc.PGrow? || s.p.pc.PLinkNext? ==> PRing(s)
    ensures s.p.pc.PStore? ==> s.p.slot < |s.rings[s.p.d].vals|
    ensures s.c.pc.CNext? || s.c.pc.CLoad? || s.c.pc.CSlot? || s.c.pc.CTake? || s.c.pc.CAdd? ==> CRing(s)
    ensures s.c.pc.CDrop? ==> s.c.d2.Some?
  {
    InitInv(size);
    ExecInv(Init(size), run);
    if s.p.d < |s.rings| { assert RingOk(s.rings[s.p.d], Storing(s, s.p.d), Adding(s, s.p.d)); }
    if s.c.d < |s.rings| { assert RingOk(s.rings[s.c.d], Storing(s, s.c.d), Adding(s, s.c.d)); }
  }

  /** A ring behind the chain's tail is drained, and no step touches it. */
  lemma StepKeepsDropped(s: State, st: Step, i: nat)
    requires Inv(s) && Enabled(s, st) && i < s.tail
    ensures i < Do(s, st).tail && i < |Do(s, st).rings| && Do(s, st).rings[i] == s.rings[i]
  {
  }

  /** A dropped ring stays as it was, empty, in every later state. */
  lemma {:induction false} DroppedRingStaysEmpty(s: State, run: seq<Step>, i: nat)
    requires Inv(s) && Exec(s, run).Some? && i < s.tail
    ensures var t := Exec(s, run).value;
      i < t.tail && i < |t.rings| && t.rings[i] == s.rings[i] && t.rings[i].taken == |t.rings[i].items|
    decreases |run|
  {
    if run != [] {
      StepInv(s, run[0]);
      StepKeepsDropped(s, run[0], i);
      DroppedRingStaysEmpty(Do(s, run[0]), run[1..], i);
    }
  }
}
