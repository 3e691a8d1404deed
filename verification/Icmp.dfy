/** The server's own answer to an ICMP echo request (internal/server/icmp.go). */
module Icmp {
  import opened Common
  import opened Octets
  import opened Checksum
  import opened Packet
  import opened Rewrite

  /** `ipv4HeaderLen`. */
  function HeaderLen(s: seq<byte>): (n: nat)
    ensures n != 0 ==> 20 <= n <= 60 && n % 2 == 0 && n <= |s|
  {
    if |s| < 20 || s[0] / 16 != 4 then 0
    else
      var ihl := s[0] % 16 * 4;
      if ihl < 20 || |s| < ihl then 0 else ihl
  }

  function TotalLen(s: seq<byte>): nat
    requires |s| >= 20
  {
    Join(s[2], s[3])
  }

  /** Neither a fragment nor followed by one; the don't-fragment bit does not matter. */
  predicate Whole(s: seq<byte>)
    requires |s| >= 20
  {
    s[6] % 64 == 0 && s[7] == 0
  }

  /** A whole ICMP echo request for `vip`. */
  predicate IsRequest(s: seq<byte>, vip: Quad) {
    HeaderLen(s) != 0 &&
    var n := HeaderLen(s);
    && Whole(s) && n + 8 <= TotalLen(s) <= |s|
    && s[9] == 1 && Get4(s, 16) == vip && s[n] == 8 && s[n + 1] == 0
  }

  // ----- What the answer is, for any checksum function -----

  /** Addresses swapped and the type that of a reply. */
  function Turned(s: seq<byte>, ihl: nat): (t: seq<byte>)
    requires 20 <= ihl < |s|
    ensures |t| == |s|
  {
    Put4(Put4(s, 12, Get4(s, 16)), 16, Get4(s, 12))[ihl := 0]
  }

  function SealIcmp(f: Sums, s: seq<byte>, ihl: nat): (t: seq<byte>)
    requires ihl + 4 <= |s|
    ensures |t| == |s|
  {
    Put2(s, ihl + 2, f.header(Put2(s, ihl + 2, ZERO)[ihl..]))
  }

  function Answer(f: Sums, s: seq<byte>, vip: Quad): Option<seq<byte>> {
    if !IsRequest(s, vip) then None
    else
      var n := HeaderLen(s);
      Some(SealHeader(f, SealIcmp(f, Turned(s[..TotalLen(s)], n), n), n))
  }

  /** The tests of `echoReply`. */
  method IsMine(pkt: array<byte>, vip: Quad) returns (ok: bool)
    ensures ok == IsRequest(pkt[..], vip)
  {
    var ihl := HeaderLen(pkt[..]);
    if ihl == 0 { return false; }
    if pkt[6] % 64 != 0 || pkt[7] != 0 { return false; }
    var total := Join(pkt[2], pkt[3]);
    if total < ihl + 8 || total > pkt.Length { return false; }
    if pkt[9] != 1 { return false; }
    if Get4(pkt[..], 16) != vip { return false; }
    ok := pkt[ihl] == 8 && pkt[ihl + 1] == 0;
  }

  /** The copy with the addresses swapped and the type that of a reply. */
  method TurnAround(pkt: array<byte>, ihl: nat, total: nat) returns (reply: array<byte>)
    requires 20 <= ihl < total <= pkt.Length
    ensures fresh(reply) && reply[..] == Turned(pkt[..][..total], ihl)
  {
    reply := Copied(pkt, total);
    SetQuad(reply, 12, Get4(pkt[..], 16));
    SetQuad(reply, 16, Get4(pkt[..], 12));
    reply[ihl] := 0;
  }

  /** `echoReply`. */
  method EchoReply(pkt: array<byte>, vip: Quad) returns (reply: array<byte>, ok: bool)
    ensures ok == Answer(RFC, pkt[..], vip).Some?
    ensures ok ==> fresh(reply) && reply[..] == Answer(RFC, pkt[..], vip).value
    ensures pkt[..] == old(pkt[..])
  {
    reply := pkt;
    ok := IsMine(pkt, vip);
    if !ok { return; }
    var ihl := HeaderLen(pkt[..]);
    reply := TurnAround(pkt, ihl, TotalLen(pkt[..]));
    SealIcmpInPlace(reply, ihl);
    RewriteHeader(reply, ihl);
  }

  method Copied(pkt: array<byte>, n: nat) returns (a: array<byte>)
    requires n <= pkt.Length
    ensures fresh(a) && a[..] == pkt[..][..n]
  {
    a := new byte[n](i => 0);
    for i := 0 to n
      invariant a[..i] == pkt[..][..i]
    {
      a[i] := pkt[i];
      assert a[..i + 1] == a[..i] + [a[i]];
    }
  }

  method SealIcmpInPlace(buf: array<byte>, ihl: nat)
    requires ihl + 4 <= buf.Length <= 0xFFFF
    modifies buf
    ensures buf[..] == SealIcmp(RFC, old(buf[..]), ihl)
  {
    SetWord(buf, ihl + 2, ZERO);
    assert buf[ihl..] == buf[..][ihl..];
    var sum := ComputeWord(buf[ihl..]);
    SetWord(buf, ihl + 2, sum);
    assert buf[..] == Put2(old(buf[..]), ihl + 2, sum);
  }

  // ----- What the answer is worth -----

  lemma SealIcmpVerifies(f: Sums, v: Tests, s: seq<byte>, ihl: nat)
    requires Sound(f, v) && ihl + 4 <= |s|
    ensures v.header(SealIcmp(f, s, ihl)[ihl..])
  {
    var a := s[ihl..];
    assert Put2(s, ihl + 2, ZERO)[ihl..] == Put2(a, 2, ZERO);
    assert SealIcmp(f, s, ihl)[ihl..] == Put2(a, 2, f.header(Put2(a, 2, ZERO)));
  }

  /** The bytes an answer may differ in. */
  predicate Changed(ihl: nat, i: nat) { 10 <= i < 20 || i == ihl || i == ihl + 2 || i == ihl + 3 }

  lemma AnswerBytes(f: Sums, s: seq<byte>, vip: Quad)
    requires IsRequest(s, vip)
    ensures var t, n := Answer(f, s, vip).value, HeaderLen(s);
      && |t| == TotalLen(s)
      && Get4(t, 12) == vip && Get4(t, 16) == Get4(s, 12) && t[n] == 0
      && forall i | 0 <= i < |t| && !Changed(n, i) :: t[i] == s[i]
  {
    var n := HeaderLen(s);
    var a := Turned(s[..TotalLen(s)], n);
    var b := SealIcmp(f, a, n);
    assert forall i | 0 <= i < |a| && i != n + 2 && i != n + 3 :: b[i] == a[i];
    var t := SealHeader(f, b, n);
    assert forall i | 0 <= i < |a| && i != 10 && i != 11 :: t[i] == b[i];
  }

  /** An answer goes from `vip` to where the request came from, has type 0, is otherwise the
      request, cut to its total length, and both its sums verify. */
  lemma AnswerIsRight(s: seq<byte>, vip: Quad)
    requires IsRequest(s, vip)
    ensures var t, n := Answer(RFC, s, vip).value, HeaderLen(s);
      && |t| == TotalLen(s)
      && Get4(t, 12) == vip && Get4(t, 16) == Get4(s, 12) && t[n] == 0
      && (forall i | 0 <= i < |t| && !Changed(n, i) :: t[i] == s[i])
      && RECEIVER.header(t[..n]) && RECEIVER.header(t[n..])
  {
    RfcSound();
    AnswerBytes(RFC, s, vip);
    AnswerSums(RFC, RECEIVER, s, vip);
  }

  lemma AnswerSums(f: Sums, v: Tests, s: seq<byte>, vip: Quad)
    requires Sound(f, v) && IsRequest(s, vip)
    ensures var t, n := Answer(f, s, vip).value, HeaderLen(s);
      |t| == TotalLen(s) && v.header(t[..n]) && v.header(t[n..])
  {
    var n := HeaderLen(s);
    var a := Turned(s[..TotalLen(s)], n);
    var b := SealIcmp(f, a, n);
    SealIcmpVerifies(f, v, a, n);
    SealedHeaderVerifies(f, v, b, n);
    assert SealHeader(f, b, n)[n..] == b[n..];
  }

  /** The answer is not itself a request, so the server never answers its own answers. */
  lemma AnswerIsNoRequest(s: seq<byte>, vip: Quad, other: Quad)
    requires IsRequest(s, vip)
    ensures !IsRequest(Answer(RFC, s, vip).value, other)
  {
    AnswerBytes(RFC, s, vip);
    var t, n := Answer(RFC, s, vip).value, HeaderLen(s);
    assert !Changed(n, 0);
    assert HeaderLen(t) == n;
  }
}
