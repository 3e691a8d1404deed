/** The Internet checksum: section 1 of RFC 1071 (internal/client/nat.go, internal/server/icmp.go). */
module Checksum {
  import opened Common
  import opened Octets

  function Join(hi: byte, lo: byte): uint16 { hi * 0x100 + lo }

  /** The 16-bit words of `s` added up; an odd last byte is the high half of a word. */
  function Sum(s: seq<byte>): nat {
    if s == [] then 0
    else if |s| == 1 then Join(s[0], 0)
    else Join(s[0], s[1]) + Sum(s[2..])
  }

  /** Adding the carries back in until none is left. */
  function Fold(n: nat): (r: uint16)
    ensures r == 0 <==> n == 0
  {
    if n < 0x1_0000 then n else Fold(n % 0x1_0000 + n / 0x1_0000)
  }

  /** The checksum field of `s`, computed with that field zero. */
  function Csum(s: seq<byte>): uint16 { 0xFFFF - Fold(Sum(s)) }

  function Check(s: seq<byte>): Word { Split(Csum(s)) }

  /** A receiver's test: the sum over everything, checksum field included, has all bits set. */
  predicate Verifies(s: seq<byte>) { Fold(Sum(s)) == 0xFFFF }

  /** Folding takes away a multiple of 0xFFFF. */
  lemma {:induction false} FoldQuotient(n: nat) returns (q: nat)
    ensures n == 0xFFFF * q + Fold(n)
  {
    if n < 0x1_0000 {
      q := 0;
    } else {
      q := FoldQuotient(n % 0x1_0000 + n / 0x1_0000);
      q := q + n / 0x1_0000;
    }
  }

  /** So a sum verifies exactly when it is a positive multiple of 0xFFFF. */
  lemma {:induction false} FoldOnes(n: nat)
    ensures Fold(n) == 0xFFFF <==> n > 0 && n % 0xFFFF == 0
  {
    var q := FoldQuotient(n);
    Remainder(q, Fold(n), n);
  }

  lemma Remainder(q: nat, f: uint16, n: nat)
    requires n == 0xFFFF * q + f && (f == 0 <==> n == 0)
    ensures f == 0xFFFF <==> n > 0 && n % 0xFFFF == 0
  {
  }

  lemma {:induction false} SumBound(s: seq<byte>)
    ensures Sum(s) <= 0xFFFF * ((|s| + 1) / 2)
  {
    if |s| > 1 { SumBound(s[2..]); }
  }

  lemma {:induction false} AllOnes(n: nat)
    ensures Sum(seq(2 * n, i => 0xFF as byte)) == 0xFFFF * n
  {
    if n > 0 {
      assert seq(2 * n, i => 0xFF as byte)[2..] == seq(2 * (n - 1), i => 0xFF as byte);
      AllOnes(n - 1);
    }
  }

  /** No packet and no pseudo-header with its segment overflows the 32-bit accumulator. */
  lemma NoOverflow(s: seq<byte>)
    requires |s| <= 131_074
    ensures Sum(s) < 0x1_0000_0000
  {
    SumBound(s);
  }

  /** The bound is exact: of any greater even length some buffer overflows it. */
  lemma {:induction false} BoundIsExact(n: nat)
    requires 2 * n > 131_074
    ensures exists t: seq<byte> :: |t| == 2 * n && Sum(t) >= 0x1_0000_0000
  {
    AllOnes(n);
    assert |seq(2 * n, i => 0xFF as byte)| == 2 * n;
  }

  /** The first loop, over a 32-bit accumulator that wraps. */
  method Accumulate(buf: seq<byte>) returns (sum: uint32)
    ensures sum == Sum(buf) % 0x1_0000_0000
  {
    sum := 0;
    var i := 0;
    while i + 1 < |buf|
      invariant i <= |buf|
      invariant Wrap(sum + Sum(buf[i..])) == Wrap(Sum(buf))
      decreases |buf| - i
    {
      var w := Join(buf[i], buf[i + 1]);
      assert buf[i..][2..] == buf[i + 2..];
      assert sum + Sum(buf[i..]) == sum + w + Sum(buf[i + 2..]);
      Wraps(sum + w, Sum(buf[i + 2..]));
      sum := Wrap(sum + w);
      i := i + 2;
    }
    if i < |buf| {
      assert Sum(buf[i..]) == Join(buf[i], 0);
      sum := Wrap(sum + Join(buf[i], 0));
    } else {
      assert Sum(buf[i..]) == 0;
    }
  }

  method ComputeWord(buf: seq<byte>) returns (w: Word)
    ensures |buf| <= 131_074 ==> w == Check(buf)
  {
    var r := Compute(buf);
    w := Split(r);
  }

  function Wrap(n: nat): uint32 { n % 0x1_0000_0000 }

  /** `checksum`. */
  method Compute(buf: seq<byte>) returns (r: uint16)
    ensures r == 0xFFFF - Fold(Sum(buf) % 0x1_0000_0000)
    ensures |buf| <= 131_074 ==> r == Csum(buf)
  {
    var sum := Accumulate(buf);
    ghost var total := sum;
    while sum / 0x1_0000 != 0
      invariant Fold(sum) == Fold(total)
      decreases sum
    {
      sum := sum % 0x1_0000 + sum / 0x1_0000;
    }
    r := 0xFFFF - sum;
    if |buf| <= 131_074 { NoOverflow(buf); }
  }

  lemma {:induction false} Wraps(a: nat, b: nat)
    ensures Wrap(Wrap(a) + b) == Wrap(a + b)
  {
    var q := a / 0x1_0000_0000;
    assert a + b == q * 0x1_0000_0000 + (a % 0x1_0000_0000 + b);
  }

  // ----- Filling in a checksum field -----

  function Get2(s: seq<byte>, k: nat): Word
    requires k + 2 <= |s|
  {
    Word(s[k], s[k + 1])
  }

  /** Overwrite a word. */
  function Put2(s: seq<byte>, k: nat, w: Word): (t: seq<byte>)
    requires k + 2 <= |s|
    ensures |t| == |s|
  {
    s[k := w.hi][k + 1 := w.lo]
  }

  lemma {:induction false} SumAppend(a: seq<byte>, b: seq<byte>)
    requires |a| % 2 == 0
    ensures Sum(a + b) == Sum(a) + Sum(b)
  {
    if a == [] {
      assert a + b == b;
    } else {
      assert (a + b)[2..] == a[2..] + b;
      SumAppend(a[2..], b);
    }
  }

  /** `t` is `s` but for the word at `k`. */
  predicate SameBut(s: seq<byte>, t: seq<byte>, k: nat) {
    && |s| == |t| && k % 2 == 0 && k + 2 <= |s|
    && forall i | 0 <= i < |s| && i != k && i != k + 1 :: s[i] == t[i]
  }

  lemma {:induction false} SumSameBut(s: seq<byte>, t: seq<byte>, k: nat, a: uint16, b: uint16)
    requires SameBut(s, t, k) && a == Value(Get2(s, k)) && b == Value(Get2(t, k))
    ensures Sum(t) + a == Sum(s) + b
  {
    assert s[..k] == t[..k] && s[k + 2..] == t[k + 2..];
    assert s == s[..k] + (s[k..k + 2] + s[k + 2..]) && t == t[..k] + (t[k..k + 2] + t[k + 2..]);
    SumAppend(s[..k], s[k..k + 2] + s[k + 2..]);
    SumAppend(t[..k], t[k..k + 2] + t[k + 2..]);
    SumAppend(s[k..k + 2], s[k + 2..]);
    SumAppend(t[k..k + 2], t[k + 2..]);
    OneWord(s[k..k + 2]);
    OneWord(t[k..k + 2]);
  }

  lemma OneWord(s: seq<byte>)
    requires |s| == 2
    ensures Sum(s) == Value(Get2(s, 0))
  {
    assert s[2..] == [];
  }

  lemma {:induction false} OnesModulus(m: nat, v: uint16)
    ensures Fold(m + v) == 0xFFFF <==> v == 0xFFFF - Fold(m) || (Fold(m) == 0xFFFF && v == 0xFFFF)
  {
    var p := FoldQuotient(m);
    var q := FoldQuotient(m + v);
    Close(q - p, Fold(m), v, Fold(m + v));
  }

  lemma Close(k: int, f: uint16, v: uint16, g: uint16)
    requires f + v == 0xFFFF * k + g && (g == 0 <==> f == 0 && v == 0)
    ensures g == 0xFFFF <==> v == 0xFFFF - f || (f == 0xFFFF && v == 0xFFFF)
  {
  }

  /** A value in the checksum field verifies exactly when it is the computed one, or the other
      zero of ones'-complement arithmetic. */
  lemma {:induction false} FieldVerifies(z: seq<byte>, t: seq<byte>, k: nat, v: uint16)
    requires SameBut(z, t, k) && Value(Get2(z, k)) == 0 && Value(Get2(t, k)) == v
    ensures Verifies(t) <==> v == Csum(z) || (Csum(z) == 0 && v == 0xFFFF)
  {
    FieldSum(z, t, k, v);
    SumVerifies(z, t, v);
  }

  lemma {:induction false} FieldSum(z: seq<byte>, t: seq<byte>, k: nat, v: uint16)
    requires SameBut(z, t, k) && Value(Get2(z, k)) == 0 && Value(Get2(t, k)) == v
    ensures Sum(t) == Sum(z) + v
  {
    SumSameBut(z, t, k, 0, v);
  }

  lemma {:induction false} SumVerifies(z: seq<byte>, t: seq<byte>, v: uint16)
    requires Sum(t) == Sum(z) + v
    ensures Verifies(t) <==> v == Csum(z) || (Csum(z) == 0 && v == 0xFFFF)
  {
    OnesModulus(Sum(z), v);
  }

  lemma PutSameBut(s: seq<byte>, k: nat, v: Word, w: Word)
    requires k % 2 == 0 && k + 2 <= |s|
    ensures SameBut(Put2(s, k, v), Put2(s, k, w), k)
    ensures Get2(Put2(s, k, v), k) == v && Get2(Put2(s, k, w), k) == w
  {
  }

  lemma {:induction false} FilledVerifies(z: seq<byte>, t: seq<byte>, k: nat)
    requires SameBut(z, t, k) && Value(Get2(z, k)) == 0 && Value(Get2(t, k)) == Csum(z)
    ensures Verifies(t)
  {
    FieldVerifies(z, t, k, Csum(z));
  }

  /** The field as the code fills it in verifies. */
  lemma {:induction false} SealVerifies(s: seq<byte>, k: nat)
    requires k % 2 == 0 && k + 2 <= |s|
    ensures Verifies(Put2(s, k, Check(Put2(s, k, ZERO))))
  {
    var z := Put2(s, k, ZERO);
    var c := Check(z);
    PutSameBut(s, k, ZERO, c);
    FilledVerifies(z, Put2(s, k, c), k);
  }
}
