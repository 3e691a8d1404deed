/** IPv4 packets and the rewriting of their checksums in place (internal/client/nat.go).
    Addresses and words are kept as their octets in network order. */
module Packet {
  import opened Common
  import opened Octets
  import opened Checksum

  const TCP: byte := 6
  const UDP: byte := 17

  datatype Quad = Quad(hi: Word, lo: Word)

  /** The fields of a packet that matter here; `ihl` and `total` are in bytes. */
  datatype Pkt = Pkt(proto: byte, src: Quad, dst: Quad, ihl: nat, total: nat) {
    predicate HasPorts() { proto == TCP || proto == UDP }

    /** The transport header is complete. */
    predicate TransportOk() {
      if proto == TCP then total >= ihl + 20 else if proto == UDP then total >= ihl + 8 else true
    }

    /** Where the checksum of a segment is. */
    function CsumAt(): nat { if proto == TCP then 16 else 6 }
  }

  function Get4(s: seq<byte>, k: nat): Quad
    requires k + 4 <= |s|
  {
    Quad(Get2(s, k), Get2(s, k + 2))
  }

  function Put4(s: seq<byte>, k: nat, v: Quad): (t: seq<byte>)
    requires k + 4 <= |s|
    ensures |t| == |s|
  {
    Put2(Put2(s, k, v.hi), k + 2, v.lo)
  }

  /** `parseIPv4`. */
  function Parse(s: seq<byte>): (r: Option<Pkt>)
    ensures r.Some? ==> 20 <= r.value.ihl <= 60 && r.value.ihl % 2 == 0 && r.value.ihl <= r.value.total <= |s|
    ensures r.Some? ==> r.value.total <= 0xFFFF
  {
    if |s| < 20 || s[0] / 16 != 4 then None
    else
      var ihl := s[0] % 16 * 4;
      if ihl < 20 || |s| < ihl then None
      else
        var claimed := Join(s[2], s[3]);
        var total := if claimed > |s| then |s| else claimed;
        if total < ihl then None else Some(Pkt(s[9], Get4(s, 12), Get4(s, 16), ihl, total))
  }

  /** `srcPort` and `dstPort`, at offsets 0 and 2 of the segment. */
  function Port(s: seq<byte>, p: Pkt, off: nat): Word
    requires p.total <= |s| && off <= 2
  {
    if !p.HasPorts() || p.total < p.ihl + 4 then ZERO else Get2(s, p.ihl + off)
  }

  // ----- What rewriting the checksums computes, for any pair of checksum functions -----

  /** The checksum of a header, and that of a segment of a packet. */
  datatype Sums = Sums(header: seq<byte> -> Word, segment: (Pkt, seq<byte>) -> Word)

  /** The segment has a checksum to recompute: it is long enough, and it is not UDP with a zero
      field, which means that the sender did not compute one. */
  predicate Sealable(s: seq<byte>, p: Pkt)
    requires p.ihl <= p.total <= |s|
  {
    && p.HasPorts() && p.total - p.ihl >= p.CsumAt() + 2
    && !(p.proto == UDP && Get2(s, p.ihl + 6) == ZERO)
  }

  function SealHeader(f: Sums, s: seq<byte>, ihl: nat): (t: seq<byte>)
    requires 20 <= ihl <= |s|
    ensures |t| == |s|
  {
    Put2(s, 10, f.header(Put2(s, 10, ZERO)[..ihl]))
  }

  function SealSegment(f: Sums, s: seq<byte>, p: Pkt): (t: seq<byte>)
    requires p.ihl <= p.total <= |s| && Sealable(s, p)
    ensures |t| == |s|
  {
    var k := p.ihl + p.CsumAt();
    Put2(s, k, f.segment(p, Put2(s, k, ZERO)[p.ihl..p.total]))
  }

  function Rewritten(f: Sums, s: seq<byte>): (t: seq<byte>)
    ensures |t| == |s|
  {
    var r := Parse(s);
    if r.None? then s
    else
      var h := SealHeader(f, s, r.value.ihl);
      if Sealable(h, r.value) then SealSegment(f, h, r.value) else h
  }

  // ----- What the result is worth -----

  /** A receiver's two tests. */
  datatype Tests = Tests(header: seq<byte> -> bool, segment: (Pkt, seq<byte>) -> bool)

  /** Filling an even field in with its checksum passes the test. */
  ghost predicate Sound(f: Sums, v: Tests) {
    && (forall s: seq<byte>, k: nat | k % 2 == 0 && k + 2 <= |s| :: v.header(Put2(s, k, f.header(Put2(s, k, ZERO)))))
    && (forall p: Pkt, s: seq<byte>, k: nat | k % 2 == 0 && k + 2 <= |s| ::
          v.segment(p, Put2(s, k, f.segment(p, Put2(s, k, ZERO)))))
  }

  lemma ParseSame(s: seq<byte>, t: seq<byte>)
    requires |s| == |t| && forall i | 0 <= i < |s| && i < 20 && i != 10 && i != 11 :: s[i] == t[i]
    ensures Parse(s) == Parse(t)
  {
  }

  lemma SealedHeaderVerifies(f: Sums, v: Tests, s: seq<byte>, ihl: nat)
    requires Sound(f, v) && 20 <= ihl <= |s|
    ensures v.header(SealHeader(f, s, ihl)[..ihl])
  {
    var a := s[..ihl];
    assert Put2(s, 10, ZERO)[..ihl] == Put2(a, 10, ZERO);
    assert SealHeader(f, s, ihl)[..ihl] == Put2(a, 10, f.header(Put2(a, 10, ZERO)));
  }

  lemma SealedSegmentVerifies(f: Sums, v: Tests, s: seq<byte>, p: Pkt)
    requires Sound(f, v) && p.ihl <= p.total <= |s| && Sealable(s, p)
    ensures v.segment(p, SealSegment(f, s, p)[p.ihl..p.total])
  {
    var a, n := s[p.ihl..p.total], p.CsumAt();
    assert Put2(s, p.ihl + n, ZERO)[p.ihl..p.total] == Put2(a, n, ZERO);
    assert SealSegment(f, s, p)[p.ihl..p.total] == Put2(a, n, f.segment(p, Put2(a, n, ZERO)));
  }

  /** Rewriting leaves everything but the checksum fields, and these verify. */
  lemma RewrittenVerifies(f: Sums, v: Tests, s: seq<byte>)
    requires Sound(f, v)
    ensures Parse(Rewritten(f, s)) == Parse(s)
    ensures Parse(s).Some? ==>
      var p, t := Parse(s).value, Rewritten(f, s);
      && v.header(t[..p.ihl])
      && (Sealable(s, p) ==> v.segment(p, t[p.ihl..p.total]))
  {
    if Parse(s).Some? {
      var p := Parse(s).value;
      var h := SealHeader(f, s, p.ihl);
      SealedHeaderVerifies(f, v, s, p.ihl);
      assert Sealable(s, p) == Sealable(h, p);
      if Sealable(h, p) {
        SealedSegmentVerifies(f, v, h, p);
        assert SealSegment(f, h, p)[..p.ihl] == h[..p.ihl];
      }
      ParseSame(s, Rewritten(f, s));
    }
  }

  lemma RewrittenTouches(f: Sums, s: seq<byte>, i: nat)
    requires i < |s| && Rewritten(f, s)[i] != s[i]
    ensures Parse(s).Some?
    ensures var p := Parse(s).value;
      i == 10 || i == 11 || (Sealable(s, p) && (i == p.ihl + p.CsumAt() || i == p.ihl + p.CsumAt() + 1))
  {
  }

  // ----- Readdressing -----

  /** New address at byte `at` and new port at byte `off` of the segment. */
  function Placed(s: seq<byte>, p: Pkt, at: nat, ip: Quad, off: nat, port: Word): (t: seq<byte>)
    requires p.ihl + 4 <= p.total <= |s| && at + 4 <= p.ihl && off <= 2
    ensures |t| == |s|
  {
    Put2(Put4(s, at, ip), p.ihl + off, port)
  }

  /** The packet after its addresses have been replaced. */
  function Moved(p: Pkt, at: nat, ip: Quad): Pkt { if at == 12 then p.(src := ip) else p.(dst := ip) }

  /** The bytes that readdressing may change. */
  predicate Touched(p: Pkt, at: nat, off: nat, i: nat) {
    || i == 10 || i == 11 || at <= i < at + 4
    || i == p.ihl + off || i == p.ihl + off + 1
    || i == p.ihl + p.CsumAt() || i == p.ihl + p.CsumAt() + 1
  }

  lemma ParsePlaced(s: seq<byte>, at: nat, ip: Quad, off: nat, port: Word)
    requires Parse(s).Some? && Parse(s).value.total >= Parse(s).value.ihl + 4
    requires (at == 12 || at == 16) && off <= 2
    ensures var p := Parse(s).value; Parse(Placed(s, p, at, ip, off, port)) == Some(Moved(p, at, ip))
  {
  }

  lemma PlacedKeeps(s: seq<byte>, p: Pkt, at: nat, ip: Quad, off: nat, port: Word, i: nat)
    requires p.ihl + 4 <= p.total <= |s| && at + 4 <= p.ihl && off <= 2 && i < |s|
    requires !(at <= i < at + 4) && i != p.ihl + off && i != p.ihl + off + 1
    ensures Placed(s, p, at, ip, off, port)[i] == s[i]
  {
  }

  /** What stands in a packet after it has been readdressed and its sums rewritten. */
  lemma RedirectedBytes(f: Sums, s: seq<byte>, at: nat, ip: Quad, off: nat, port: Word)
    requires Parse(s).Some? && Parse(s).value.HasPorts() && Parse(s).value.TransportOk()
    requires (at == 12 || at == 16) && (off == 0 || off == 2)
    ensures var p := Parse(s).value;
      var t := Rewritten(f, Placed(s, p, at, ip, off, port));
      && t[p.ihl + off] == port.hi && t[p.ihl + off + 1] == port.lo
      && forall i | 0 <= i < |s| && !Touched(p, at, off, i) :: t[i] == s[i]
  {
    var p := Parse(s).value;
    ParsePlaced(s, at, ip, off, port);
    var b := Placed(s, p, at, ip, off, port);
    var t := Rewritten(f, b);
    forall i | 0 <= i < |s| && t[i] != b[i]
      ensures i == 10 || i == 11 || i == p.ihl + p.CsumAt() || i == p.ihl + p.CsumAt() + 1
    {
      RewrittenTouches(f, b, i);
    }
    forall i | 0 <= i < |s| && !Touched(p, at, off, i) ensures t[i] == s[i] {
      PlacedKeeps(s, p, at, ip, off, port, i);
    }
  }

  lemma PlacedSealable(s: seq<byte>, p: Pkt, at: nat, ip: Quad, off: nat, port: Word)
    requires 20 <= p.ihl <= p.total <= |s| && p.HasPorts() && p.TransportOk() && at <= 16 && off <= 2
    ensures Sealable(Placed(s, p, at, ip, off, port), Moved(p, at, ip)) <==>
            p.proto == TCP || Get2(s, p.ihl + 6) != ZERO
  {
  }

  /** A complete TCP or UDP packet that is readdressed reads back with the new address, and its
      sums pass, except for UDP without a checksum. */
  lemma RedirectedSums(f: Sums, v: Tests, s: seq<byte>, at: nat, ip: Quad, off: nat, port: Word)
    requires Sound(f, v)
    requires Parse(s).Some? && Parse(s).value.HasPorts() && Parse(s).value.TransportOk()
    requires (at == 12 || at == 16) && (off == 0 || off == 2)
    ensures var p := Parse(s).value;
      var t, q := Rewritten(f, Placed(s, p, at, ip, off, port)), Moved(p, at, ip);
      && Parse(t) == Some(q)
      && v.header(t[..p.ihl])
      && (p.proto == TCP || Get2(s, p.ihl + 6) != ZERO ==> v.segment(q, t[p.ihl..p.total]))
  {
    var p := Parse(s).value;
    ParsePlaced(s, at, ip, off, port);
    RewrittenVerifies(f, v, Placed(s, p, at, ip, off, port));
    PlacedSealable(s, p, at, ip, off, port);
  }

  lemma RewrittenParse(f: Sums, s: seq<byte>)
    ensures Parse(Rewritten(f, s)) == Parse(s)
  {
    if Parse(s).Some? { ParseSame(s, Rewritten(f, s)); }
  }

  lemma RedirectedParse(f: Sums, s: seq<byte>, at: nat, ip: Quad, off: nat, port: Word)
    requires Parse(s).Some? && Parse(s).value.total >= Parse(s).value.ihl + 4
    requires (at == 12 || at == 16) && off <= 2
    ensures var p := Parse(s).value;
      Parse(Rewritten(f, Placed(s, p, at, ip, off, port))) == Some(Moved(p, at, ip))
  {
    ParsePlaced(s, at, ip, off, port);
    RewrittenParse(f, Placed(s, Parse(s).value, at, ip, off, port));
  }

  lemma PortsAt(s: seq<byte>, t: seq<byte>, p: Pkt, q: Pkt, off: nat, port: Word)
    requires p.HasPorts() && p.ihl + 4 <= p.total <= |s| == |t| && (off == 0 || off == 2)
    requires q.proto == p.proto && q.ihl == p.ihl && q.total == p.total
    requires t[p.ihl + off] == port.hi && t[p.ihl + off + 1] == port.lo
    requires forall i | p.ihl + 2 - off <= i < p.ihl + 4 - off :: t[i] == s[i]
    ensures Port(t, q, off) == port && Port(t, q, 2 - off) == Port(s, p, 2 - off)
  {
  }

  /** Its ports are the new one and the one it had. */
  lemma RedirectedPorts(f: Sums, s: seq<byte>, at: nat, ip: Quad, off: nat, port: Word)
    requires Parse(s).Some? && Parse(s).value.HasPorts() && Parse(s).value.TransportOk()
    requires (at == 12 || at == 16) && (off == 0 || off == 2)
    ensures var p := Parse(s).value;
      var t, q := Rewritten(f, Placed(s, p, at, ip, off, port)), Moved(p, at, ip);
      && Port(t, q, off) == port && Port(t, q, 2 - off) == Port(s, p, 2 - off)
  {
    var p := Parse(s).value;
    RedirectedBytes(f, s, at, ip, off, port);
    assert forall i | p.ihl + 2 - off <= i < p.ihl + 4 - off :: !Touched(p, at, off, i);
    PortsAt(s, Rewritten(f, Placed(s, p, at, ip, off, port)), p, Moved(p, at, ip), off, port);
  }
}
