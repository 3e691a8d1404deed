/** One ring of the queue chain (`bufDequeue`, nps-master/lib/nps_mux/queue.go): a power-of-two
    array of slots and one word holding two wrapping 32-bit indices. */
module BufRing {
  import opened Common

  const M32: nat := 0x1_0000_0000
  const M64: nat := 0x1_0000_0000_0000_0000
  const LIMIT: nat := 0x4000_0000          // dequeueLimit

  datatype Slot = Nil | Ptr(p: int)

  /** A ring.  `vals` and `headTail` are the program's; `next` is the chain link.  `items`
      records every pointer a slot was claimed for, in order, and `taken` how many have been
      taken out: the unbounded counts behind the wrapping indices. */
  datatype Ring = Ring(vals: seq<Slot>, headTail: nat, next: Option<nat>, items: seq<int>, taken: nat)

  predicate Pow2(n: nat) {
    n == 1 || (n > 1 && n % 2 == 0 && Pow2(n / 2))
  }

  predicate SizeOk(n: nat) { Pow2(n) && n <= LIMIT }

  lemma {:induction false} Pow2Divides(n: nat, m: nat)
    requires Pow2(n) && Pow2(m) && n <= m
    ensures exists k: nat :: m == k * n
    decreases n
  {
    if n == 1 {
      assert m == m * n;
    } else {
      Pow2Divides(n / 2, m / 2);
      var k: nat :| m / 2 == k * (n / 2);
      assert m == 2 * (m / 2) && n == 2 * (n / 2);
      assert m == k * n;
    }
  }

  /** The slot of index `i` in a ring of `n` slots, `i & (n - 1)` in the program. */
  function At(i: nat, n: nat): (k: nat)
    requires n > 0
    ensures k < n
    ensures i < n ==> k == i
  {
    if i < n then i else At(i - n, n)
  }

  lemma {:induction false} AtPlus(i: nat, k: nat, n: nat)
    requires n > 0
    ensures At(i + k * n, n) == At(i, n)
    decreases k
  {
    if k > 0 {
      assert i + k * n - n == i + (k - 1) * n;
      assert i + k * n >= n;
      AtPlus(i, k - 1, n);
    } else {
      assert k * n == 0;
    }
  }

  /** Two indices less than a ring apart have different slots. */
  lemma {:induction false} AtDistinct(i: nat, j: nat, n: nat)
    requires n > 0 && i < j < i + n
    ensures At(i, n) != At(j, n)
    decreases j
  {
    if i >= n {
      AtDistinct(i - n, j - n, n);
    }
  }

  lemma Pow2Double(n: nat)
    requires Pow2(n)
    ensures Pow2(2 * n)
  {
    assert (2 * n) % 2 == 0 && (2 * n) / 2 == n;
  }

  lemma {:induction false} Pow2Quad(n: nat)
    requires Pow2(n)
    ensures Pow2(4 * n)
  {
    Pow2Double(n);
    Pow2Double(2 * n);
    assert 2 * (2 * n) == 4 * n;
  }

  lemma {:induction false} Pow2Hex(n: nat)
    requires Pow2(n)
    ensures Pow2(16 * n)
  {
    Pow2Quad(n);
    Pow2Quad(4 * n);
    assert 4 * (4 * n) == 16 * n;
  }

  lemma Pow2Word()
    ensures Pow2(M32)
  {
    Pow2Hex(1);
    Pow2Hex(0x10);
    Pow2Hex(0x100);
    Pow2Hex(0x1000);
    Pow2Hex(0x1_0000);
    Pow2Hex(0x10_0000);
    Pow2Hex(0x100_0000);
    Pow2Hex(0x1000_0000);
  }

  lemma MulAssoc(q: nat, k: nat, n: nat)
    ensures q * (k * n) == (q * k) * n
  {
  }

  /** The slot does not depend on where the 32-bit index has wrapped. */
  lemma AtWrap(i: nat, n: nat)
    requires SizeOk(n)
    ensures At(i % M32, n) == At(i, n)
  {
    Pow2Word();
    Pow2Divides(n, M32);
    var k: nat :| M32 == k * n;
    AtWrapBy(i, n, i / M32, k);
  }

  lemma AtWrapBy(i: nat, n: nat, q: nat, k: nat)
    requires n > 0 && M32 == k * n && q == i / M32
    ensures At(i % M32, n) == At(i, n)
  {
    MulAssoc(q, k, n);
    AtPlus(i % M32, q * k, n);
  }

  // ----- The index word -----

  function PackIdx(head: nat, tail: nat): nat { (head % M32) * M32 + tail % M32 }
  function HeadOf(w: nat): nat { (w / M32) % M32 }
  function TailOf(w: nat): nat { w % M32 }

  lemma UnpackIdx(head: nat, tail: nat)
    ensures HeadOf(PackIdx(head, tail)) == head % M32 && TailOf(PackIdx(head, tail)) == tail % M32
  {
    var w := PackIdx(head, tail);
    assert w / M32 == head % M32 && w % M32 == tail % M32;
  }

  /** The two add constants of `popTail`. */
  function BumpTail(headTail: nat, loadedTail: nat): nat {
    if loadedTail < M32 - 1 then (headTail + 1) % M64 else (headTail + (M64 - M32 + 1)) % M64
  }

  /** Either constant adds one to the tail modulo 2^32 and leaves the head alone. */
  lemma BumpTailWraps(head: nat, tail: nat)
    ensures BumpTail(PackIdx(head, tail), tail % M32) == PackIdx(head, tail + 1)
  {
    var h, t := head % M32, tail % M32;
    assert PackIdx(head, tail) == h * M32 + t;
    assert h * M32 + t < M64;
    if t < M32 - 1 {
      assert (tail + 1) % M32 == t + 1;
    } else {
      assert (tail + 1) % M32 == 0;
      assert h * M32 + t + (M64 - M32 + 1) == h * M32 + M64;
    }
  }

  /** `(tail + len) mod 2^32 == head`: the ring is full. */
  predicate Full(w: nat, n: nat) { (TailOf(w) + n) % M32 == HeadOf(w) }

  // ----- What a ring keeps -----

  /** The tail index in the word; it lags while a taken element is not yet counted. */
  function TailIdx(r: Ring, adding: bool): int { if adding then r.taken - 1 else r.taken }

  /** Exactly the claimed and not yet taken indices have full slots.  `storing`: the producer
      has claimed the last index and not yet stored; `adding`: the consumer has emptied a slot
      and not yet moved the tail. */
  predicate RingOk(r: Ring, storing: bool, adding: bool) {
    var n, t := |r.vals|, TailIdx(r, adding);
    && SizeOk(n)
    && 0 <= t && r.taken <= |r.items| <= t + n
    && (storing ==> r.taken < |r.items|)
    && r.headTail == PackIdx(|r.items|, t)
    && (forall i | r.taken <= i < |r.items| && !(storing && i == |r.items| - 1) :: r.vals[At(i, n)] == Ptr(r.items[i]))
    && (storing ==> r.vals[At(|r.items| - 1, n)] == Nil)
    && (forall i | |r.items| <= i < r.taken + n :: r.vals[At(i, n)] == Nil)
  }

  function NewRing(n: nat): Ring { Ring(seq(n, _ => Nil), 0, None, [], 0) }

  lemma NewRingOk(n: nat)
    requires SizeOk(n)
    ensures RingOk(NewRing(n), false, false)
  {
    assert PackIdx(0, 0) == 0;
  }

  lemma EmptyFull(r: Ring, storing: bool, adding: bool)
    requires RingOk(r, storing, adding)
    ensures var t := TailIdx(r, adding);
      && HeadOf(r.headTail) == |r.items| % M32 && TailOf(r.headTail) == t % M32
      && (TailOf(r.headTail) == HeadOf(r.headTail) <==> |r.items| == t)
      && (Full(r.headTail, |r.vals|) <==> |r.items| == t + |r.vals|)
  {
    WordSays(r.headTail, |r.items|, TailIdx(r, adding), |r.vals|);
  }

  /** A word says empty and full rightly, though its indices wrap. */
  lemma WordSays(w: nat, head: nat, tail: nat, n: nat)
    requires w == PackIdx(head, tail) && tail <= head <= tail + n && n <= LIMIT
    ensures HeadOf(w) == head % M32 && TailOf(w) == tail % M32
    ensures TailOf(w) == HeadOf(w) <==> head == tail
    ensures Full(w, n) <==> head == tail + n
  {
    UnpackIdx(head, tail);
    ModGap(tail, head - tail);
    ModAdd(tail, n);
    ModGap(head, tail + n - head);
  }

  lemma ModAdd(t: nat, n: nat)
    ensures (t % M32 + n) % M32 == (t + n) % M32
  {
    var q := t / M32;
    assert t + n == (t % M32 + n) + M32 * q;
  }

  lemma ModGap(t: nat, d: nat)
    requires d <= LIMIT
    ensures (t + d) % M32 == t % M32 <==> d == 0
  {
  }

  // ----- The producer's side -----

  /** The swap that claims a slot. */
  function Claim(r: Ring, val: int): Ring {
    r.(headTail := PackIdx(HeadOf(r.headTail) + 1, TailOf(r.headTail)), items := r.items + [val])
  }

  lemma ClaimWord(r: Ring, adding: bool)
    requires RingOk(r, false, adding)
    ensures PackIdx(HeadOf(r.headTail) + 1, TailOf(r.headTail)) == PackIdx(|r.items| + 1, TailIdx(r, adding))
  {
    EmptyFull(r, false, adding);
    NextWord(|r.items|, TailIdx(r, adding));
  }

  lemma NextWord(head: nat, tail: nat)
    ensures PackIdx(head % M32 + 1, tail % M32) == PackIdx(head + 1, tail)
  {
    ModAdd(head, 1);
  }

  /** A claimed slot is always empty. */
  lemma ClaimedSlotEmpty(r: Ring, adding: bool)
    requires RingOk(r, false, adding) && !Full(r.headTail, |r.vals|)
    ensures |r.items| < TailIdx(r, adding) + |r.vals|
    ensures At(HeadOf(r.headTail), |r.vals|) == At(|r.items|, |r.vals|)
    ensures r.vals[At(HeadOf(r.headTail), |r.vals|)] == Nil
  {
    EmptyFull(r, false, adding);
    AtWrap(|r.items|, |r.vals|);
  }

  lemma ClaimOk(r: Ring, adding: bool, val: int)
    requires RingOk(r, false, adding) && !Full(r.headTail, |r.vals|)
    ensures RingOk(Claim(r, val), true, adding)
  {
    ClaimWord(r, adding);
    ClaimedSlotEmpty(r, adding);
  }

  /** The plain store into the claimed slot. */
  function Store(r: Ring, slot: nat, val: int): Ring
    requires slot < |r.vals|
  {
    r.(vals := r.vals[slot := Ptr(val)])
  }

  lemma StoreOk(r: Ring, adding: bool, val: int)
    requires RingOk(r, true, adding) && val == r.items[|r.items| - 1]
    ensures RingOk(Store(r, At(|r.items| - 1, |r.vals|), val), false, adding)
  {
    var n, h := |r.vals|, |r.items|;
    forall i | r.taken <= i < r.taken + n && i != h - 1 ensures At(i, n) != At(h - 1, n) {
      if i < h - 1 { AtDistinct(i, h - 1, n); } else { AtDistinct(h - 1, i, n); }
    }
  }

  // ----- The consumer's side -----

  /** The swap that empties the oldest slot. */
  function Take(r: Ring, slot: nat): Ring
    requires slot < |r.vals|
  {
    r.(vals := r.vals[slot := Nil], taken := r.taken + 1)
  }

  lemma OthersDistinct(t: nat, n: nat)
    requires SizeOk(n)
    ensures forall i | t < i < t + n :: At(i, n) != At(t, n)
    ensures At(t + n, n) == At(t, n)
  {
    forall i | t < i < t + n ensures At(i, n) != At(t, n) { AtDistinct(t, i, n); }
  }

  lemma TakeOk(r: Ring, storing: bool)
    requires RingOk(r, storing, false) && r.taken < |r.items|
    requires r.vals[At(r.taken, |r.vals|)] != Nil
    ensures RingOk(Take(r, At(r.taken, |r.vals|)), storing, true)
    ensures r.vals[At(r.taken, |r.vals|)] == Ptr(r.items[r.taken])
  {
    OthersDistinct(r.taken, |r.vals|);
  }

  /** The atomic add that moves the tail. */
  function Count(r: Ring, loadedTail: nat): Ring {
    r.(headTail := BumpTail(r.headTail, loadedTail))
  }

  lemma CountOk(r: Ring, storing: bool)
    requires RingOk(r, storing, true)
    ensures RingOk(Count(r, (r.taken - 1) % M32), storing, false)
  {
    BumpTailWraps(|r.items|, r.taken - 1);
  }
}
