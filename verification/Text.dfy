/** The text formats the components print and parse: decimal numbers and dotted addresses,
    as the Go library reads and writes them. */
module Text {
  import opened Common

  // ----- Decimal numbers -----

  predicate IsDigit(c: char) { '0' <= c <= '9' }

  predicate AllDigits(s: string) { forall i | 0 <= i < |s| :: IsDigit(s[i]) }

  function DigitChar(d: nat): (c: char)
    requires d < 10
    ensures IsDigit(c) && DigitVal(c) == d
  {
    "0123456789"[d]
  }

  function DigitVal(c: char): (d: int)
    ensures IsDigit(c) ==> 0 <= d < 10
  {
    c as int - '0' as int
  }

  /** `%d` of a natural number. */
  function Decimal(n: nat): (s: string)
    ensures s != [] && AllDigits(s)
    ensures n < 10 <==> |s| == 1
    ensures n < 100 ==> |s| <= 2
    ensures n < 1000 ==> |s| <= 3
    ensures n > 0 ==> s[0] != '0'
  {
    if n < 10 then [DigitChar(n)] else Decimal(n / 10) + [DigitChar(n % 10)]
  }

  function DigitsVal(s: string): nat
    requires AllDigits(s)
  {
    if s == [] then 0
    else
      assert IsDigit(s[|s| - 1]);
      10 * DigitsVal(s[..|s| - 1]) + DigitVal(s[|s| - 1])
  }

  lemma {:induction false} DecimalRoundTrip(n: nat)
    ensures DigitsVal(Decimal(n)) == n
    decreases n
  {
    var s := Decimal(n);
    if n < 10 {
      assert s[..0] == [];
      assert DigitsVal(s) == 10 * DigitsVal(s[..0]) + DigitVal(s[0]);
    } else {
      DecimalRoundTrip(n / 10);
      assert s[..|s| - 1] == Decimal(n / 10);
    }
  }

  lemma DecimalInjective(m: nat, n: nat)
    requires Decimal(m) == Decimal(n)
    ensures m == n
  {
    DecimalRoundTrip(m);
    DecimalRoundTrip(n);
  }

  const MAX_INT64: int := 0x7fff_ffff_ffff_ffff

  /** `strconv.Atoi`: an optional sign and at least one digit, within 64 bits. */
  function Atoi(s: string): Option<int> {
    var neg, body := s != [] && s[0] == '-', if s != [] && (s[0] == '-' || s[0] == '+') then s[1..] else s;
    if body == [] || !AllDigits(body) then None
    else
      var v: int := DigitsVal(body);
      if neg then (if v <= MAX_INT64 + 1 then Some(-v) else None)
      else (if v <= MAX_INT64 then Some(v) else None)
  }

  lemma AtoiDecimal(n: nat)
    requires n <= MAX_INT64
    ensures Atoi(Decimal(n)) == Some(n)
  {
    DecimalRoundTrip(n);
    assert IsDigit(Decimal(n)[0]);
  }

  // ----- Searching and trimming -----

  /** The first position of `c`, or the length. */
  function Index(s: string, c: char): (i: nat)
    ensures i <= |s| && (i < |s| ==> s[i] == c)
    ensures forall j | 0 <= j < i :: s[j] != c
  {
    if s == [] || s[0] == c then 0 else 1 + Index(s[1..], c)
  }

  /** One more than the last position of `c`, or zero. */
  function LastIndex(s: string, c: char): (i: nat)
    ensures i <= |s| && (i > 0 ==> s[i - 1] == c)
    ensures forall j | i <= j < |s| :: s[j] != c
  {
    if s == [] then 0 else if s[|s| - 1] == c then |s| else LastIndex(s[..|s| - 1], c)
  }

  lemma IndexIs(s: string, c: char, i: nat)
    requires i < |s| && s[i] == c && forall j | 0 <= j < i :: s[j] != c
    ensures Index(s, c) == i
  {
  }

  lemma LastIndexIs(s: string, c: char, i: nat)
    requires i < |s| && s[i] == c && forall j | i < j < |s| :: s[j] != c
    ensures LastIndex(s, c) == i + 1
  {
  }

  /** `unicode.IsSpace`. */
  predicate IsSpace(c: char) {
    var u := c as int;
    9 <= u <= 13 || u == 32 || u == 0x85 || u == 0xA0 || u == 0x1680 || 0x2000 <= u <= 0x200a
    || u == 0x2028 || u == 0x2029 || u == 0x202f || u == 0x205f || u == 0x3000
  }

  /** `strings.TrimSpace`. */
  function TrimLeft(s: string): string { if s != [] && IsSpace(s[0]) then TrimLeft(s[1..]) else s }
  function TrimRight(s: string): string { if s != [] && IsSpace(s[|s| - 1]) then TrimRight(s[..|s| - 1]) else s }
  function TrimSpace(s: string): string { TrimRight(TrimLeft(s)) }

  // ----- Dotted addresses -----

  function Octet(v: uint32, k: nat): (b: byte)
    requires k < 4
  {
    if k == 0 then v / 0x100_0000
    else if k == 1 then v / 0x1_0000 % 0x100
    else if k == 2 then v / 0x100 % 0x100
    else v % 0x100
  }

  function FromOctets(a: byte, b: byte, c: byte, d: byte): uint32 {
    a * 0x100_0000 + b * 0x1_0000 + c * 0x100 + d
  }

  lemma OctetsRoundTrip(v: uint32)
    ensures FromOctets(Octet(v, 0), Octet(v, 1), Octet(v, 2), Octet(v, 3)) == v
  {
    var a, b, c := v / 0x100_0000, v / 0x1_0000, v / 0x100;
    assert v == c * 0x100 + v % 0x100;
    assert c == b * 0x100 + c % 0x100;
    assert b == a * 0x100 + b % 0x100;
  }

  /** `net.IP.String` of a four-byte address. */
  function IpString(v: uint32): string {
    Decimal(Octet(v, 0)) + "." + Decimal(Octet(v, 1)) + "." + Decimal(Octet(v, 2)) + "." + Decimal(Octet(v, 3))
  }

  /** One field of a dotted address: one to three digits, no leading zero, at most 255. */
  function ParseOctet(s: string): (r: Option<byte>) {
    if s == [] || |s| > 3 || !AllDigits(s) || (|s| > 1 && s[0] == '0') || DigitsVal(s) > 255 then None
    else Some(DigitsVal(s))
  }

  lemma ParseOctetDecimal(b: byte)
    ensures ParseOctet(Decimal(b)) == Some(b)
  {
    DecimalRoundTrip(b);
  }

  /** A text at its first dot. */
  function Cut(s: string): Option<(string, string)> {
    var i := Index(s, '.');
    if i == |s| then None else Some((s[..i], s[i + 1..]))
  }

  /** `net.ParseIP(s).To4()` on dotted text: exactly four fields. */
  function ParseIp4(s: string): (r: Option<uint32>) {
    match Cut(s)
    case None => None
    case Some((s0, t1)) =>
      match Cut(t1)
      case None => None
      case Some((s1, t2)) =>
        match Cut(t2)
        case None => None
        case Some((s2, s3)) => FromFields(s0, s1, s2, s3)
  }

  function FromFields(s0: string, s1: string, s2: string, s3: string): Option<uint32> {
    match (ParseOctet(s0), ParseOctet(s1), ParseOctet(s2), ParseOctet(s3))
    case (Some(a), Some(b), Some(c), Some(d)) => Some(FromOctets(a, b, c, d))
    case _ => None
  }

  /** Cutting at the first dot recovers a field of digits and what follows it. */
  lemma CutField(a: string, rest: string)
    requires AllDigits(a)
    ensures Cut(a + ("." + rest)) == Some((a, rest))
  {
    var s := a + ("." + rest);
    IndexIs(s, '.', |a|);
    assert s[..|a|] == a && s[|a| + 1..] == rest;
  }

  lemma ParseFourFields(a: string, b: string, c: string, d: string)
    requires AllDigits(a) && AllDigits(b) && AllDigits(c)
    ensures ParseIp4(a + ("." + (b + ("." + (c + ("." + d)))))) == FromFields(a, b, c, d)
  {
    CutField(a, b + ("." + (c + ("." + d))));
    CutField(b, c + ("." + d));
    CutField(c, d);
  }

  /** Printing and parsing an address are inverse. */
  lemma IpRoundTrip(v: uint32)
    ensures ParseIp4(IpString(v)) == Some(v)
  {
    var a, b, c, d := Decimal(Octet(v, 0)), Decimal(Octet(v, 1)), Decimal(Octet(v, 2)), Decimal(Octet(v, 3));
    assert IpString(v) == a + ("." + (b + ("." + (c + ("." + d)))));
    ParseOctetDecimal(Octet(v, 0));
    ParseOctetDecimal(Octet(v, 1));
    ParseOctetDecimal(Octet(v, 2));
    ParseOctetDecimal(Octet(v, 3));
    ParseFourFields(a, b, c, d);
    OctetsRoundTrip(v);
  }
}
