/** Rewriting checksums in place with the Internet checksum (internal/client/nat.go). */
module Rewrite {
  import opened Common
  import opened Octets
  import opened Checksum
  import opened Packet

  /** The pseudo-header of section 3.1 of RFC 9293 and RFC 768, for a segment of `n` bytes. */
  function Pseudo(p: Pkt, n: nat): (s: seq<byte>)
    ensures |s| == 12
  {
    var len := Split(n % 0x1_0000);
    [p.src.hi.hi, p.src.hi.lo, p.src.lo.hi, p.src.lo.lo, p.dst.hi.hi, p.dst.hi.lo, p.dst.lo.hi, p.dst.lo.lo,
     0, p.proto, len.hi, len.lo]
  }

  function SegmentCheck(p: Pkt, seg: seq<byte>): Word { Check(Pseudo(p, |seg|) + seg) }
  predicate SegmentVerifies(p: Pkt, seg: seq<byte>) { Verifies(Pseudo(p, |seg|) + seg) }

  /** The code's checksums and a receiver's tests. */
  const RFC: Sums := Sums(Check, SegmentCheck)
  const RECEIVER: Tests := Tests(s => Verifies(s), (p, s) => SegmentVerifies(p, s))

  lemma PutBehind(a: seq<byte>, s: seq<byte>, k: nat, w: Word)
    requires k + 2 <= |s|
    ensures a + Put2(s, k, w) == Put2(a + s, |a| + k, w)
  {
  }

  lemma {:induction false} SegmentSound(p: Pkt, s: seq<byte>, k: nat)
    requires k % 2 == 0 && k + 2 <= |s|
    ensures SegmentVerifies(p, Put2(s, k, SegmentCheck(p, Put2(s, k, ZERO))))
  {
    var a := Pseudo(p, |s|);
    var w := SegmentCheck(p, Put2(s, k, ZERO));
    PutBehind(a, s, k, ZERO);
    PutBehind(a, s, k, w);
    SealVerifies(a + s, 12 + k);
  }

  /** What the code writes passes a receiver's test. */
  lemma {:induction false} RfcSound()
    ensures Sound(RFC, RECEIVER)
  {
    forall s: seq<byte>, k: nat | k % 2 == 0 && k + 2 <= |s|
      ensures RECEIVER.header(Put2(s, k, RFC.header(Put2(s, k, ZERO))))
    {
      SealVerifies(s, k);
    }
    forall p: Pkt, s: seq<byte>, k: nat | k % 2 == 0 && k + 2 <= |s|
      ensures RECEIVER.segment(p, Put2(s, k, RFC.segment(p, Put2(s, k, ZERO))))
    {
      SegmentSound(p, s, k);
    }
  }

  // ----- In place -----

  method RewriteHeader(buf: array<byte>, ihl: nat)
    requires 20 <= ihl <= buf.Length && ihl <= 60
    modifies buf
    ensures buf[..] == SealHeader(RFC, old(buf[..]), ihl)
  {
    buf[10], buf[11] := 0, 0;
    assert buf[..] == Put2(old(buf[..]), 10, ZERO);
    assert buf[..ihl] == buf[..][..ihl];
    var sum := ComputeWord(buf[..ihl]);
    buf[10], buf[11] := sum.hi, sum.lo;
    assert buf[..] == Put2(old(buf[..]), 10, sum);
  }

  method RewriteSegment(buf: array<byte>, p: Pkt)
    requires p.ihl <= p.total <= buf.Length && p.total <= 0xFFFF && Sealable(buf[..], p)
    modifies buf
    ensures buf[..] == SealSegment(RFC, old(buf[..]), p)
  {
    var k := p.ihl + p.CsumAt();
    buf[k], buf[k + 1] := 0, 0;
    assert buf[..] == Put2(old(buf[..]), k, ZERO);
    var seg := buf[p.ihl..p.total];
    assert seg == buf[..][p.ihl..p.total];
    var sum := ComputeWord(Pseudo(p, |seg|) + seg);
    buf[k], buf[k + 1] := sum.hi, sum.lo;
    assert buf[..] == Put2(old(buf[..]), k, sum);
  }

  /** The tests before the segment's sum is recomputed. */
  method ToSeal(buf: array<byte>, p: Pkt) returns (ok: bool)
    requires p.ihl <= p.total <= buf.Length
    ensures ok == Sealable(buf[..], p)
  {
    if !p.HasPorts() { return false; }
    var n := p.total - p.ihl;
    if p.proto == UDP && n >= 8 && buf[p.ihl + 6] == 0 && buf[p.ihl + 7] == 0 { return false; }
    ok := n >= p.CsumAt() + 2;
  }

  /** `rewriteChecksums`. */
  method RewriteChecksums(buf: array<byte>)
    modifies buf
    ensures buf[..] == Rewritten(RFC, old(buf[..]))
  {
    var r := Parse(buf[..]);
    if r.None? { return; }
    RewriteHeader(buf, r.value.ihl);
    var ok := ToSeal(buf, r.value);
    if ok { RewriteSegment(buf, r.value); }
  }

  /** `rewriteDstToSelf`. */
  function ToSelf(s: seq<byte>, self: Quad): (seq<byte>, bool) {
    var r := Parse(s);
    if r.None? then (s, false)
    else if r.value.dst == self then (s, true)
    else (Rewritten(RFC, Put4(s, 16, self)), true)
  }

  method RewriteDstToSelf(buf: array<byte>, self: Quad) returns (ok: bool)
    modifies buf
    ensures (buf[..], ok) == ToSelf(old(buf[..]), self)
  {
    var r := Parse(buf[..]);
    if r.None? { return false; }
    if r.value.dst == self { return true; }
    SetQuad(buf, 16, self);
    RewriteChecksums(buf);
    ok := true;
  }

  method SetWord(buf: array<byte>, k: nat, w: Word)
    requires k + 2 <= buf.Length
    modifies buf
    ensures buf[..] == Put2(old(buf[..]), k, w)
  {
    buf[k], buf[k + 1] := w.hi, w.lo;
  }

  method SetQuad(buf: array<byte>, k: nat, q: Quad)
    requires k + 4 <= buf.Length
    modifies buf
    ensures buf[..] == Put4(old(buf[..]), k, q)
  {
    SetWord(buf, k, q.hi);
    SetWord(buf, k + 2, q.lo);
  }

  /** A packet turned to this host is addressed to it and otherwise the same but for its sums,
      which pass unless the segment is too short to have one or UDP without one; only what is
      not an IPv4 packet is refused, and that is left alone. */
  lemma ToSelfOk(s: seq<byte>, self: Quad)
    ensures var (t, ok) := ToSelf(s, self);
      && |t| == |s| && (ok <==> Parse(s).Some?) && (!ok ==> t == s)
      && (ok && Parse(s).value.dst == self ==> t == s)
      && (ok ==> Parse(t) == Some(Parse(s).value.(dst := self)))
  {
    if Parse(s).Some? && Parse(s).value.dst != self {
      RfcSound();
      PlacedDst(s, self);
      RewrittenVerifies(RFC, RECEIVER, Put4(s, 16, self));
    }
  }

  lemma PlacedDst(s: seq<byte>, q: Quad)
    requires Parse(s).Some?
    ensures Parse(Put4(s, 16, q)) == Some(Parse(s).value.(dst := q))
  {
  }

  lemma ToSelfSums(s: seq<byte>, self: Quad)
    requires Parse(s).Some? && Parse(s).value.dst != self
    ensures var t := ToSelf(s, self).0;
      var p := Parse(s).value.(dst := self);
      && |t| == |s| && RECEIVER.header(t[..p.ihl])
      && (Sealable(s, p) ==> RECEIVER.segment(p, t[p.ihl..p.total]))
  {
    var b := Put4(s, 16, self);
    PlacedDst(s, self);
    RfcSound();
    RewrittenVerifies(RFC, RECEIVER, b);
    var p := Parse(s).value;
    if p.HasPorts() && p.total - p.ihl >= p.CsumAt() + 2 { assert Get2(b, p.ihl + 6) == Get2(s, p.ihl + 6); }
  }

  lemma ToSelfTouches(s: seq<byte>, self: Quad, i: nat)
    requires Parse(s).Some? && i < |s| && ToSelf(s, self).0[i] != s[i]
    ensures var p := Parse(s).value;
      i == 10 || i == 11 || 16 <= i < 20 || (Sealable(s, p) && (i == p.ihl + p.CsumAt() || i == p.ihl + p.CsumAt() + 1))
  {
    var b := Put4(s, 16, self);
    PlacedDst(s, self);
    var p := Parse(s).value;
    if p.HasPorts() && p.total - p.ihl >= p.CsumAt() + 2 { assert Get2(b, p.ihl + 6) == Get2(s, p.ihl + 6); }
    if Rewritten(RFC, b)[i] != b[i] { RewrittenTouches(RFC, b, i); }
  }

  /** The words that a UDP checksum covers, pseudo-header `a` and segment, without the field. */
  function Outside(a: seq<byte>, seg: seq<byte>): int
    requires |seg| >= 8
  {
    Sum(a + seg) - Value(Get2(seg, 6))
  }

  /** Words with this sum add up to all ones in ones'-complement arithmetic. */
  predicate AllOnesSum(n: int) { n > 0 && n % 0xFFFF == 0 }

  lemma EmptyField(a: seq<byte>, seg: seq<byte>)
    requires |a| == 12 && |seg| >= 8
    ensures SameBut(a + seg, a + Put2(seg, 6, ZERO), 18)
    ensures Get2(a + seg, 18) == Get2(seg, 6) && Value(Get2(a + Put2(seg, 6, ZERO), 18)) == 0
  {
  }

  /** Emptying the field takes its value off the sum. */
  lemma {:induction false} EmptySum(x: seq<byte>, z: seq<byte>, k: nat, v: uint16)
    requires SameBut(x, z, k) && Value(Get2(x, k)) == v && Value(Get2(z, k)) == 0
    ensures Sum(z) == Sum(x) - v
  {
    SumSameBut(x, z, k, v, 0);
  }

  lemma {:induction false} CheckZero(s: seq<byte>, n: int)
    requires Sum(s) == n
    ensures Check(s) == ZERO <==> AllOnesSum(n)
  {
    FoldOnes(n);
    SplitZero(Csum(s));
  }

  lemma SplitZero(n: uint16)
    ensures Split(n) == ZERO <==> n == 0
  {
    var w := Split(n);
    assert w.hi * 0x100 + w.lo == n;
  }

  /** What is written into the checksum field of a UDP packet. */
  lemma WrittenField(s: seq<byte>)
    requires Parse(s).Some? && Parse(s).value.proto == UDP && Sealable(s, Parse(s).value)
    ensures var p := Parse(s).value;
      && Get2(s, p.ihl + 6) == Get2(s[p.ihl..p.total], 6)
      && Get2(Rewritten(RFC, s), p.ihl + 6) ==
         Check(Pseudo(p, p.total - p.ihl) + Put2(s[p.ihl..p.total], 6, ZERO))
  {
    var p := Parse(s).value;
    var h := SealHeader(RFC, s, p.ihl);
    assert Sealable(h, p);
    assert Put2(h, p.ihl + 6, ZERO)[p.ihl..p.total] == Put2(s[p.ihl..p.total], 6, ZERO);
  }

  /** A UDP checksum that comes out as zero is written as zero, where RFC 768 wants all ones, and
      a receiver then takes it as not computed.  This happens exactly when the rest of what the
      checksum covers sums to a positive multiple of 0xFFFF. */
  lemma {:induction false} UdpFieldZero(s: seq<byte>)
    requires Parse(s).Some? && Parse(s).value.proto == UDP && Sealable(s, Parse(s).value)
    ensures var p := Parse(s).value;
      Get2(Rewritten(RFC, s), p.ihl + 6) == ZERO <==>
      AllOnesSum(Outside(Pseudo(p, p.total - p.ihl), s[p.ihl..p.total]))
  {
    var p := Parse(s).value;
    WrittenField(s);
    CoveredZero(Pseudo(p, p.total - p.ihl), s[p.ihl..p.total]);
  }

  lemma {:induction false} ZeroField(a: seq<byte>, seg: seq<byte>, x: seq<byte>, z: seq<byte>, v: uint16)
    requires |a| == 12 && |seg| >= 8 && v == Value(Get2(seg, 6))
    requires x == a + seg && z == a + Put2(seg, 6, ZERO)
    ensures Check(z) == ZERO <==> AllOnesSum(Sum(x) - v)
  {
    assert SameBut(x, z, 18) && Value(Get2(x, 18)) == v && Value(Get2(z, 18)) == 0 by { EmptyField(a, seg); }
    FieldIsZero(x, z, v);
  }

  lemma {:induction false} CoveredZero(a: seq<byte>, seg: seq<byte>)
    requires |a| == 12 && |seg| >= 8
    ensures Check(a + Put2(seg, 6, ZERO)) == ZERO <==> AllOnesSum(Outside(a, seg))
  {
    ZeroField(a, seg, a + seg, a + Put2(seg, 6, ZERO), Value(Get2(seg, 6)));
  }

  lemma {:induction false} FieldIsZero(x: seq<byte>, z: seq<byte>, v: uint16)
    requires SameBut(x, z, 18) && Value(Get2(x, 18)) == v && Value(Get2(z, 18)) == 0
    ensures Check(z) == ZERO <==> AllOnesSum(Sum(x) - v)
  {
    EmptySum(x, z, 18, v);
    CheckZero(z, Sum(x) - v);
  }

  lemma {:induction false} SumOfFour(s: seq<byte>)
    requires |s| == 8
    ensures Sum(s) == Join(s[0], s[1]) + Join(s[2], s[3]) + Join(s[4], s[5]) + Join(s[6], s[7])
  {
    assert s[2..][2..] == s[4..];
    assert s[4..][2..] == s[6..];
    assert s[6..][2..] == [];
    assert Sum(s[6..]) == Join(s[6], s[7]);
    assert Sum(s[4..]) == Join(s[4], s[5]) + Sum(s[6..]);
    assert Sum(s[2..]) == Join(s[2], s[3]) + Sum(s[4..]);
  }

  lemma {:induction false} SumOfTwo(s: seq<byte>)
    requires |s| == 4
    ensures Sum(s) == Join(s[0], s[1]) + Join(s[2], s[3])
  {
    assert s[2..][2..] == [];
    assert Sum(s[2..]) == Join(s[2], s[3]);
  }
}
