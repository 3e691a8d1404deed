/** The chain of rings refines a first-in first-out queue. */
module BufChainProofs {
  import opened Common
  import opened BufRing
  import opened BufChain

  /** What is left in a sequence of rings, oldest first. */
  function Remain(rs: seq<Ring>): seq<int>
    requires forall i | 0 <= i < |rs| :: rs[i].taken <= |rs[i].items|
  {
    if rs == [] then [] else rs[0].items[rs[0].taken..] + Remain(rs[1..])
  }

  predicate Storing(s: State, i: nat) { s.p.pc.PStore? && i == s.p.d }
  predicate Adding(s: State, i: nat) { s.c.pc.CAdd? && i == s.c.d }

  predicate RingsOk(s: State) {
    forall i | 0 <= i < |s.rings| :: RingOk(s.rings[i], Storing(s, i), Adding(s, i))
  }

  /** Rings the consumer can reach: all but one whose link is not stored yet. */
  function Linked(s: State): nat
    requires |s.rings| > 0
  {
    if s.p.pc.PLinkNext? then |s.rings| - 1 else |s.rings|
  }

  predicate LinksOk(s: State) {
    && |s.rings| > 0 && s.head == |s.rings| - 1
    && s.tail < Linked(s)
    && (forall i | 0 <= i < |s.rings| :: s.rings[i].next == if i + 1 < Linked(s) then Some(i + 1) else None)
    && (forall i | 0 <= i < s.tail :: s.rings[i].taken == |s.rings[i].items|)
    && (forall i | s.tail < i < |s.rings| :: s.rings[i].taken == 0)
  }

  predicate ProducerOk(s: State) {
    var p, last := s.p, |s.rings| - 1;
    && last >= 0
    && (p.pc.PLoad? || p.pc.PSwap? || p.pc.PStore? || p.pc.PGrow? || p.pc.PLinkHead? ==> p.d == last)
    && (p.pc.PSwap? ==> !Full(p.ptrs, |s.rings[last].vals|))
    && (p.pc.PStore? ==>
          && |s.rings[last].items| > 0 && s.rings[last].items[|s.rings[last].items| - 1] == p.val
          && |s.rings[last].vals| > 0 && p.slot == At(|s.rings[last].items| - 1, |s.rings[last].vals|))
    && (p.pc.PLinkHead? ==> RingOk(p.d2, false, false) && p.d2.items == [p.val] && p.d2.taken == 0 && p.d2.next == None)
    && (p.pc.PLinkNext? ==> last >= 1 && p.d == last - 1 && s.rings[last].items == [p.val])
    && (s.newChain <==> p.pc.PLinkHead? || p.pc.PLinkNext? || p.pc.PClear?)
  }

  predicate ConsumerOk(s: State) {
    var c := s.c;
    && (!c.pc.CIdle? && !c.pc.CTail? ==> c.d == s.tail < |s.rings|)
    && (c.pc.CLoad? || c.pc.CSlot? || c.pc.CTake? || c.pc.CDrop? ==>
          if c.d2.Some? then s.rings[c.d].next == c.d2
          else s.rings[c.d].taken <= |s.rings[c.d].items| && c.seen <= s.rings[c.d].items[s.rings[c.d].taken..])
    && (c.pc.CSlot? || c.pc.CTake? ==>
          s.rings[c.d].taken < |s.rings[c.d].items| && TailOf(c.ptrs) == s.rings[c.d].taken % M32)
    && (c.pc.CAdd? ==> s.rings[c.d].taken > 0 && TailOf(c.ptrs) == (s.rings[c.d].taken - 1) % M32)
    && (c.pc.CTake? ==>
          && |s.rings[c.d].vals| > 0
          && s.rings[c.d].vals[At(s.rings[c.d].taken, |s.rings[c.d].vals|)] == Ptr(c.val))
    && (c.pc.CDrop? ==> c.d2.Some? && s.rings[c.d].taken == |s.rings[c.d].items|)
  }

  /** What is in the queue: everything accepted and not yet returned. */
  function Content(s: State): seq<int>
    requires RingsOk(s) && LinksOk(s)
  {
    Remain(s.rings[s.tail..Linked(s)])
  }

  predicate Inv(s: State) {
    && RingsOk(s) && LinksOk(s) && ProducerOk(s) && ConsumerOk(s)
    && s.pushed == s.popped + Content(s)
  }

  // ----- Remain under the changes a step makes -----

  lemma {:induction false} RemainSnoc(rs: seq<Ring>, r: Ring)
    requires r.taken <= |r.items| && forall i | 0 <= i < |rs| :: rs[i].taken <= |rs[i].items|
    ensures Remain(rs + [r]) == Remain(rs) + r.items[r.taken..]
    decreases |rs|
  {
    if rs == [] {
      assert rs + [r] == [r] && [r][1..] == [];
    } else {
      assert (rs + [r])[1..] == rs[1..] + [r];
      RemainSnoc(rs[1..], r);
    }
  }

  lemma RemainSame(rs: seq<Ring>, ts: seq<Ring>)
    requires |rs| == |ts|
    requires forall i | 0 <= i < |rs| ::
               rs[i].taken <= |rs[i].items| && ts[i].items == rs[i].items && ts[i].taken == rs[i].taken
    ensures Remain(ts) == Remain(rs)
    decreases |rs|
  {
    if rs != [] { RemainSame(rs[1..], ts[1..]); }
  }

  lemma InitInv(size: nat)
    requires SizeOk(size)
    ensures Inv(Init(size))
  {
    NewRingOk(size);
    var s := Init(size);
    assert RingOk(s.rings[0], Storing(s, 0), Adding(s, 0));
    assert s.rings[0..1] == [NewRing(size)];
    assert s.rings[0..1][1..] == [];
    assert Remain(s.rings[0..1]) == s.rings[0].items[0..] + Remain([]);
  }

  /** A step that changes no ring and not the reachable part of the chain. */
  lemma SameRings(s: State, t: State)
    requires RingsOk(s) && LinksOk(s) && t.rings == s.rings && t.tail == s.tail && t.head == s.head
    requires t.p.pc.PLinkNext? == s.p.pc.PLinkNext?
    requires (t.p.pc.PStore? == s.p.pc.PStore? && t.p.d == s.p.d) || (!t.p.pc.PStore? && !s.p.pc.PStore?)
    requires (t.c.pc.CAdd? == s.c.pc.CAdd? && t.c.d == s.c.d) || (!t.c.pc.CAdd? && !s.c.pc.CAdd?)
    ensures RingsOk(t) && LinksOk(t) && Content(t) == Content(s)
  {
    forall i | 0 <= i < |t.rings| ensures RingOk(t.rings[i], Storing(t, i), Adding(t, i)) {
      assert RingOk(s.rings[i], Storing(s, i), Adding(s, i));
    }
  }

  // ----- Producer steps -----

  lemma PushInv(s: State, val: int)
    requires Inv(s) && s.p.pc.PIdle?
    ensures Inv(s.(p := s.p.(pc := PGate, val := val)))
  {
    SameRings(s, s.(p := s.p.(pc := PGate, val := val)));
  }

  lemma PLoadGateInv(s: State)
    requires Inv(s) && s.p.pc.PGate?
    ensures Inv(PLoadGate(s))
  {
    SameRings(s, PLoadGate(s));
  }

  lemma PLoadHeadInv(s: State)
    requires Inv(s) && s.p.pc.PHead?
    ensures Inv(PLoadHead(s))
  {
    SameRings(s, PLoadHead(s));
  }

  lemma PClearFlagInv(s: State)
    requires Inv(s) && s.p.pc.PClear?
    ensures Inv(PClearFlag(s))
  {
    SameRings(s, PClearFlag(s));
  }

  lemma PLoadIdxInv(s: State)
    requires Inv(s) && s.p.pc.PLoad? && PRing(s)
    ensures Inv(PLoadIdx(s))
  {
    SameRings(s, PLoadIdx(s));
  }

  /** One ring of the chain changes, keeping its link; the others stay. */
  lemma OneRing(s: State, t: State, d: nat)
    requires RingsOk(s) && d < |s.rings| && |t.rings| == |s.rings|
    requires forall i | 0 <= i < |s.rings| && i != d :: t.rings[i] == s.rings[i]
    requires forall i: nat | i < |s.rings| && i != d :: Storing(t, i) == Storing(s, i) && Adding(t, i) == Adding(s, i)
    requires RingOk(t.rings[d], Storing(t, d), Adding(t, d))
    ensures RingsOk(t)
  {
  }

  lemma ClaimRings(s: State)
    requires RingsOk(s) && ProducerOk(s) && s.p.pc.PSwap? && PRing(s) && s.rings[s.p.d].headTail == s.p.ptrs
    ensures RingsOk(PTryClaim(s))
    ensures PTryClaim(s).p.slot == At(|s.rings[s.p.d].items|, |s.rings[s.p.d].vals|)
    ensures s.rings[s.p.d].vals[PTryClaim(s).p.slot] == Nil
  {
    var d := s.p.d;
    assert RingOk(s.rings[d], false, Adding(s, d));
    ClaimOk(s.rings[d], Adding(s, d), s.p.val);
    ClaimedSlotEmpty(s.rings[d], Adding(s, d));
    OneRing(s, PTryClaim(s), d);
  }

  /** Accepting a value adds it at the end of what the chain holds. */
  lemma ClaimContent(s: State, t: State)
    requires LinksOk(s) && LinksOk(t) && Taken(s) && Taken(t)
    requires s.tail == t.tail && |t.rings| == |s.rings| && Linked(s) == Linked(t) == |s.rings|
    requires forall i | s.tail <= i < |s.rings| - 1 :: t.rings[i] == s.rings[i]
    requires t.rings[s.head].taken == s.rings[s.head].taken
    requires t.rings[s.head].items == s.rings[s.head].items + [s.p.val]
    ensures Remain(t.rings[t.tail..Linked(t)]) == Remain(s.rings[s.tail..Linked(s)]) + [s.p.val]
  {
    var d := s.head;
    var before, r := s.rings[s.tail..d], s.rings[d];
    assert s.rings[s.tail..d + 1] == before + [r];
    assert t.rings[s.tail..d + 1] == before + [t.rings[d]];
    RemainSnoc(before, r);
    RemainSnoc(before, t.rings[d]);
    assert t.rings[d].items[r.taken..] == r.items[r.taken..] + [s.p.val];
  }

  predicate Taken(s: State) { forall i | 0 <= i < |s.rings| :: s.rings[i].taken <= |s.rings[i].items| }

  lemma RingsTaken(s: State)
    requires RingsOk(s)
    ensures Taken(s)
  {
    forall i | 0 <= i < |s.rings| ensures s.rings[i].taken <= |s.rings[i].items| {
      assert RingOk(s.rings[i], Storing(s, i), Adding(s, i));
    }
  }

  lemma ClaimThreads(s: State)
    requires LinksOk(s) && ProducerOk(s) && ConsumerOk(s) && Taken(s)
    requires s.p.pc.PSwap? && PRing(s) && s.rings[s.p.d].headTail == s.p.ptrs
    requires PTryClaim(s).p.slot == At(|s.rings[s.p.d].items|, |s.rings[s.p.d].vals|)
    ensures var t := PTryClaim(s); LinksOk(t) && ProducerOk(t) && ConsumerOk(t)
  {
  }

  lemma PTryClaimInv(s: State)
    requires Inv(s) && s.p.pc.PSwap? && PRing(s)
    ensures Inv(PTryClaim(s))
  {
    if s.rings[s.p.d].headTail == s.p.ptrs {
      RingsTaken(s);
      ClaimRings(s);
      ClaimThreads(s);
      RingsTaken(PTryClaim(s));
      ClaimContent(s, PTryClaim(s));
    } else {
      SameRings(s, PTryClaim(s));
    }
  }

  lemma StoreRings(s: State)
    requires RingsOk(s) && ProducerOk(s) && s.p.pc.PStore? && PRing(s)
    ensures RingsOk(PStoreVal(s))
  {
    var d := s.p.d;
    assert RingOk(s.rings[d], true, Adding(s, d));
    StoredRing(s);
    OneRing(s, PStoreVal(s), d);
  }

  lemma StoredRing(s: State)
    requires ProducerOk(s) && s.p.pc.PStore? && PRing(s) && RingOk(s.rings[s.p.d], true, Adding(s, s.p.d))
    ensures s.p.slot < |s.rings[s.p.d].vals|
    ensures PStoreVal(s).rings == s.rings[s.p.d := PStoreVal(s).rings[s.p.d]]
    ensures RingOk(PStoreVal(s).rings[s.p.d], false, Adding(s, s.p.d))
  {
    StoreOk(s.rings[s.p.d], Adding(s, s.p.d), s.p.val);
  }

  /** The store is into a slot no consumer has loaded. */
  lemma StoreThreads(s: State)
    requires RingsOk(s) && LinksOk(s) && ProducerOk(s) && ConsumerOk(s) && s.p.pc.PStore? && PRing(s)
    ensures var t := PStoreVal(s); LinksOk(t) && ProducerOk(t) && ConsumerOk(t)
  {
    var d := s.p.d;
    assert RingOk(s.rings[d], true, Adding(s, d));
  }

  lemma PStoreValInv(s: State)
    requires Inv(s) && s.p.pc.PStore? && PRing(s)
    ensures Inv(PStoreVal(s))
  {
    StoreRings(s);
    StoreThreads(s);
    RingsTaken(s);
    StoreContent(s);
  }

  lemma StoreContent(s: State)
    requires Taken(s) && |s.rings| > 0 && s.tail <= Linked(s)
    requires s.p.pc.PStore? && PRing(s) && s.p.slot < |s.rings[s.p.d].vals|
    ensures var t := PStoreVal(s);
      && t.tail == s.tail && |t.rings| == |s.rings| && Linked(t) == Linked(s) && Taken(t)
      && Remain(t.rings[t.tail..Linked(t)]) == Remain(s.rings[s.tail..Linked(s)])
  {
    RemainSame(s.rings[s.tail..Linked(s)], PStoreVal(s).rings[s.tail..Linked(s)]);
  }

  lemma GrownRingOk(n: nat, val: int)
    requires SizeOk(n)
    ensures NewSize(n) > 0 && RingOk(GrownRing(n, val), false, false)
  {
    var m := NewSize(n);
    Pow2Double(n);
    LimitIsPow2();
    NewRingOk(m);
    var r := NewRing(m);
    EmptyFull(r, false, false);
    ClaimOk(r, false, val);
    StoreOk(Claim(r, val), false, val);
  }

  lemma LimitIsPow2()
    ensures Pow2(LIMIT)
  {
    Pow2Hex(1);
    Pow2Hex(0x10);
    Pow2Hex(0x100);
    Pow2Hex(0x1000);
    Pow2Hex(0x1_0000);
    Pow2Hex(0x10_0000);
    Pow2Hex(0x100_0000);
    Pow2Double(0x1000_0000);
    Pow2Double(0x2000_0000);
  }

  lemma PTryGrowInv(s: State)
    requires Inv(s) && s.p.pc.PGrow? && PRing(s)
    ensures Inv(PTryGrow(s))
  {
    var r := s.rings[s.p.d];
    assert RingOk(r, false, Adding(s, s.p.d));
    GrownRingOk(|r.vals|, s.p.val);
    SameRings(s, PTryGrow(s));
  }

  lemma PStoreHeadInv(s: State)
    requires Inv(s) && s.p.pc.PLinkHead?
    ensures Inv(PStoreHead(s))
  {
    var t := PStoreHead(s);
    forall i | 0 <= i < |t.rings| ensures RingOk(t.rings[i], Storing(t, i), Adding(t, i)) {
      if i < |s.rings| { assert RingOk(s.rings[i], Storing(s, i), Adding(s, i)); }
    }
    assert t.rings[t.tail..Linked(t)] == s.rings[s.tail..Linked(s)];
  }

  lemma StoreNextRings(s: State)
    requires RingsOk(s) && LinksOk(s) && ProducerOk(s) && ConsumerOk(s) && s.p.pc.PLinkNext? && PRing(s)
    ensures var t := PStoreNext(s); RingsOk(t) && LinksOk(t) && ProducerOk(t) && ConsumerOk(t)
  {
    var d := s.p.d;
    assert RingOk(s.rings[d], Storing(s, d), Adding(s, d));
    OneRing(s, PStoreNext(s), d);
  }

  lemma StoreNextContent(s: State)
    requires LinksOk(s) && Taken(s) && ProducerOk(s) && s.p.pc.PLinkNext? && PRing(s)
    ensures Remain(PStoreNext(s).rings[s.tail..|s.rings|]) == Remain(s.rings[s.tail..Linked(s)]) + [s.p.val]
  {
    var t, d := PStoreNext(s), s.p.d;
    var after := t.rings[s.tail..d + 1];
    assert t.rings[s.tail..|s.rings|] == after + [s.rings[d + 1]];
    RemainNext(s.rings[s.tail..d + 1], after, s.rings[d + 1], s.p.val);
  }

  lemma {:induction false} RemainNext(rs: seq<Ring>, ts: seq<Ring>, r: Ring, val: int)
    requires |rs| == |ts| && r.items == [val] && r.taken == 0
    requires forall i | 0 <= i < |rs| ::
               rs[i].taken <= |rs[i].items| && ts[i].items == rs[i].items && ts[i].taken == rs[i].taken
    ensures Remain(ts + [r]) == Remain(rs) + [val]
  {
    RemainSame(rs, ts);
    RemainSnoc(ts, r);
    assert r.items[0..] == [val];
  }

  lemma PStoreNextInv(s: State)
    requires Inv(s) && s.p.pc.PLinkNext? && PRing(s)
    ensures Inv(PStoreNext(s))
  {
    RingsTaken(s);
    StoreNextRings(s);
    StoreNextContent(s);
  }

  // ----- Consumer steps -----

  lemma PopInv(s: State)
    requires Inv(s) && s.c.pc.CIdle?
    ensures Inv(s.(c := s.c.(pc := CTail)))
  {
    SameRings(s, s.(c := s.c.(pc := CTail)));
  }

  lemma CLoadTailInv(s: State)
    requires Inv(s) && s.c.pc.CTail?
    ensures Inv(CLoadTail(s))
  {
    SameRings(s, CLoadTail(s));
  }

  lemma CLoadNextInv(s: State)
    requires Inv(s) && s.c.pc.CNext? && CRing(s)
    ensures Inv(CLoadNext(s))
  {
    SameRings(s, CLoadNext(s));
  }

  lemma LoadIdxThreads(s: State)
    requires RingsOk(s) && ConsumerOk(s) && s.c.pc.CLoad? && CRing(s)
    ensures ConsumerOk(CLoadIdx(s))
  {
    var d := s.c.d;
    assert RingOk(s.rings[d], Storing(s, d), Adding(s, d));
    EmptyFull(s.rings[d], Storing(s, d), Adding(s, d));
  }

  /** A step of the consumer that leaves the rings alone. */
  lemma ConsumerMoves(s: State, t: State)
    requires Inv(s) && t == s.(c := t.c) && ConsumerOk(t)
    requires !s.c.pc.CAdd? && !t.c.pc.CAdd?
    ensures Inv(t)
  {
    SameRings(s, t);
  }

  lemma LoadIdxForm(s: State)
    requires s.c.pc.CLoad? && CRing(s)
    ensures var t := CLoadIdx(s); t == s.(c := t.c) && !t.c.pc.CAdd?
  {
  }

  lemma CLoadIdxInv(s: State)
    requires Inv(s) && s.c.pc.CLoad? && CRing(s)
    ensures Inv(CLoadIdx(s))
  {
    LoadIdxThreads(s);
    LoadIdxForm(s);
    ConsumerMoves(s, CLoadIdx(s));
  }

  lemma LoadSlotThreads(s: State)
    requires RingsOk(s) && ConsumerOk(s) && s.c.pc.CSlot? && CRing(s)
    ensures ConsumerOk(CLoadSlot(s))
  {
    var d := s.c.d;
    assert RingOk(s.rings[d], Storing(s, d), Adding(s, d));
    AtWrap(s.rings[d].taken, |s.rings[d].vals|);
  }

  lemma LoadSlotForm(s: State)
    requires s.c.pc.CSlot? && CRing(s) && |s.rings[s.c.d].vals| > 0
    ensures var t := CLoadSlot(s); t == s.(c := t.c) && !t.c.pc.CAdd?
  {
  }

  lemma CLoadSlotInv(s: State)
    requires Inv(s) && s.c.pc.CSlot? && CRing(s)
    ensures Inv(CLoadSlot(s))
  {
    LoadSlotThreads(s);
    LoadSlotForm(s);
    ConsumerMoves(s, CLoadSlot(s));
  }

  lemma TakeRings(s: State)
    requires RingsOk(s) && ConsumerOk(s) && s.c.pc.CTake? && CRing(s)
    ensures RingsOk(CTryTake(s))
    ensures s.rings[s.c.d].items[s.rings[s.c.d].taken] == s.c.val
    ensures CTryTake(s) ==
            s.(rings := s.rings[s.c.d := Take(s.rings[s.c.d], At(s.rings[s.c.d].taken, |s.rings[s.c.d].vals|))],
                              popped := s.popped + [s.c.val], c := s.c.(pc := CAdd))
  {
    var d := s.c.d;
    var r := s.rings[d];
    assert RingOk(r, Storing(s, d), false);
    AtWrap(r.taken, |r.vals|);
    TakeOk(r, Storing(s, d));
    OneRing(s, CTryTake(s), d);
  }

  lemma TakeThreads(s: State, t: State)
    requires LinksOk(s) && ProducerOk(s) && ConsumerOk(s) && s.c.pc.CTake? && CRing(s)
    requires t == s.(rings := s.rings[s.c.d := Take(s.rings[s.c.d], At(s.rings[s.c.d].taken, |s.rings[s.c.d].vals|))],
                     popped := s.popped + [s.c.val], c := s.c.(pc := CAdd))
    ensures LinksOk(t) && ProducerOk(t) && ConsumerOk(t)
  {
  }

  /** Returning a value removes it from the front of what the chain holds. */
  lemma TakeContent(s: State, t: State)
    requires LinksOk(s) && LinksOk(t) && Taken(s) && Taken(t)
    requires s.tail == t.tail && |t.rings| == |s.rings| && Linked(s) == Linked(t)
    requires forall i | s.tail < i < |s.rings| :: t.rings[i] == s.rings[i]
    requires s.rings[s.tail].taken < |s.rings[s.tail].items| && t.rings[s.tail].items == s.rings[s.tail].items
    requires t.rings[s.tail].taken == s.rings[s.tail].taken + 1
    ensures Remain(s.rings[s.tail..Linked(s)])
         == [s.rings[s.tail].items[s.rings[s.tail].taken]] + Remain(t.rings[t.tail..Linked(t)])
  {
    var rs, ts := s.rings[s.tail..Linked(s)], t.rings[t.tail..Linked(t)];
    assert rs[1..] == ts[1..];
    RemainTake(rs, ts);
  }

  lemma {:induction false} RemainTake(rs: seq<Ring>, ts: seq<Ring>)
    requires rs != [] && ts != [] && rs[1..] == ts[1..]
    requires forall i | 0 <= i < |rs| :: rs[i].taken <= |rs[i].items|
    requires forall i | 0 <= i < |ts| :: ts[i].taken <= |ts[i].items|
    requires ts[0].items == rs[0].items && ts[0].taken == rs[0].taken + 1
    ensures Remain(rs) == [rs[0].items[rs[0].taken]] + Remain(ts)
  {
    var r, rest := rs[0], Remain(rs[1..]);
    assert Remain(ts) == r.items[r.taken + 1..] + rest;
    assert r.items[r.taken..] == [r.items[r.taken]] + r.items[r.taken + 1..];
    assert ([r.items[r.taken]] + r.items[r.taken + 1..]) + rest == [r.items[r.taken]] + (r.items[r.taken + 1..] + rest);
  }

  /** `t` is `s` after the oldest value has been taken. */
  predicate OneTaken(s: State, t: State) {
    && s.tail == t.tail < |s.rings| == |t.rings| && Linked(s) == Linked(t)
    && (forall i | s.tail < i < |s.rings| :: t.rings[i] == s.rings[i])
    && t.rings[s.tail].items == s.rings[s.tail].items && t.rings[s.tail].taken == s.rings[s.tail].taken + 1
    && t.pushed == s.pushed && t.popped == s.popped + [s.c.val]
  }

  lemma TakeForm(s: State, t: State)
    requires CRing(s) && s.c.d == s.tail && |s.rings[s.c.d].vals| > 0
    requires t == s.(rings := s.rings[s.c.d := Take(s.rings[s.c.d], At(s.rings[s.c.d].taken, |s.rings[s.c.d].vals|))],
                     popped := s.popped + [s.c.val], c := s.c.(pc := CAdd))
    ensures OneTaken(s, t)
  {
  }

  lemma TakeConserves(s: State, t: State)
    requires LinksOk(s) && LinksOk(t) && Taken(s) && Taken(t) && OneTaken(s, t)
    requires s.rings[s.tail].taken < |s.rings[s.tail].items| && s.rings[s.tail].items[s.rings[s.tail].taken] == s.c.val
    requires s.pushed == s.popped + Remain(s.rings[s.tail..Linked(s)])
    ensures t.pushed == t.popped + Remain(t.rings[t.tail..Linked(t)])
  {
    var before, after := Remain(s.rings[s.tail..Linked(s)]), Remain(t.rings[t.tail..Linked(t)]);
    assert before == [s.c.val] + after by { TakeContent(s, t); }
    Shift(s.popped, s.c.val, after);
  }

  lemma Shift(a: seq<int>, x: int, b: seq<int>)
    ensures a + ([x] + b) == (a + [x]) + b
  {
  }

  lemma CTryTakeInv(s: State)
    requires Inv(s) && s.c.pc.CTake? && CRing(s)
    ensures Inv(CTryTake(s))
  {
    TakeRings(s);
    TakeThreads(s, CTryTake(s));
    RingsTaken(s);
    RingsTaken(CTryTake(s));
    TakeForm(s, CTryTake(s));
    TakeConserves(s, CTryTake(s));
  }

  lemma AddRings(s: State)
    requires RingsOk(s) && ConsumerOk(s) && s.c.pc.CAdd? && CRing(s)
    ensures RingsOk(CAddTail(s))
  {
    var t, d := CAddTail(s), s.c.d;
    assert RingOk(s.rings[d], Storing(s, d), true);
    CountOk(s.rings[d], Storing(s, d));
    OneRing(s, t, d);
  }

  lemma AddThreads(s: State)
    requires LinksOk(s) && ProducerOk(s) && ConsumerOk(s) && s.c.pc.CAdd? && CRing(s)
    ensures LinksOk(CAddTail(s)) && ProducerOk(CAddTail(s)) && ConsumerOk(CAddTail(s))
  {
  }

  lemma CAddTailInv(s: State)
    requires Inv(s) && s.c.pc.CAdd? && CRing(s)
    ensures Inv(CAddTail(s))
  {
    var t := CAddTail(s);
    AddRings(s);
    AddThreads(s);
    RemainSame(s.rings[s.tail..Linked(s)], t.rings[t.tail..Linked(t)]);
  }

  lemma DropRings(s: State)
    requires RingsOk(s) && s.c.pc.CDrop? && s.c.d2.Some?
    ensures RingsOk(CDropRing(s))
  {
    var t := CDropRing(s);
    forall i | 0 <= i < |t.rings| ensures RingOk(t.rings[i], Storing(t, i), Adding(t, i)) {
      assert RingOk(s.rings[i], Storing(s, i), Adding(s, i));
    }
  }

  lemma DropThreads(s: State)
    requires LinksOk(s) && ProducerOk(s) && ConsumerOk(s) && s.c.pc.CDrop?
    ensures var t := CDropRing(s); LinksOk(t) && ProducerOk(t) && ConsumerOk(t) && t.tail == s.tail + 1
  {
  }

  lemma CDropRingInv(s: State)
    requires Inv(s) && s.c.pc.CDrop?
    ensures Inv(CDropRing(s))
  {
    DropRings(s);
    DropThreads(s);
    RingsTaken(s);
    assert s.rings[s.tail..Linked(s)][1..] == s.rings[s.tail + 1..Linked(s)];
  }

  lemma StepInv(s: State, st: Step)
    requires Inv(s) && Enabled(s, st)
    ensures Inv(Do(s, st))
  {
    match st
    case StPLoadIdx => PLoadIdxInv(s);
    case StPTryClaim => PTryClaimInv(s);
    case StPStoreVal => PStoreValInv(s);
    case StPTryGrow => PTryGrowInv(s);
    case StPStoreHead => PStoreHeadInv(s);
    case StPStoreNext => PStoreNextInv(s);
    case StCLoadIdx => CLoadIdxInv(s);
    case StCLoadSlot => CLoadSlotInv(s);
    case StCTryTake => CTryTakeInv(s);
    case StCAddTail => CAddTailInv(s);
    case StCDropRing => CDropRingInv(s);
    case Push(val) => PushInv(s, val);
    case StPLoadGate => PLoadGateInv(s);
    case StPLoadHead => PLoadHeadInv(s);
    case StPClearFlag => PClearFlagInv(s);
    case Pop => PopInv(s);
    case StCLoadTail => CLoadTailInv(s);
    case StCLoadNext => CLoadNextInv(s);
  }

  lemma {:induction false} ExecInv(s: State, run: seq<Step>)
    requires Inv(s) && Exec(s, run).Some?
    ensures Inv(Exec(s, run).value)
    decreases |run|
  {
    if run != [] {
      StepInv(s, run[0]);
      ExecInv(Do(s, run[0]), run[1..]);
    }
  }
}
