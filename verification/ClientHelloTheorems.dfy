/** Parsing a ClientHello inverts writing one. */
module ClientHelloTheorems {
  import opened Common
  import opened Octets
  import opened ClientHello

  // ----- Writing -----

  /** The two octets that stand for `n`. */
  ghost function Enc2(n: uint16): (s: seq<byte>)
    ensures |s| == 2 && Dec2(s) == n
  {
    Enc2Exists(n);
    var s: seq<byte> :| |s| == 2 && Dec2(s) == n;
    s
  }

  lemma {:induction false} Enc2Exists(n: uint16)
    ensures exists s: seq<byte> :: |s| == 2 && Dec2(s) == n
  {
    var w := Split(n);
    assert Dec2([w.hi, w.lo]) == n;
  }

  ghost function EncWords(ws: seq<uint16>): (s: seq<byte>)
    ensures |s| == 2 * |ws|
  {
    if ws == [] then [] else Enc2(ws[0]) + EncWords(ws[1..])
  }

  /** An entry of the server name list; type 0 is a host name. */
  datatype Name = Name(kind: byte, name: seq<byte>)

  predicate NamesFit(ns: seq<Name>) { forall i | 0 <= i < |ns| :: |ns[i].name| < 0x1_0000 }

  ghost function EncNames(ns: seq<Name>): seq<byte>
    requires NamesFit(ns)
  {
    if ns == [] then [] else [ns[0].kind] + Enc2(|ns[0].name|) + ns[0].name + EncNames(ns[1..])
  }

  /** The first host name. */
  function Host(ns: seq<Name>): Option<seq<byte>> {
    if ns == [] then None else if ns[0].kind == 0 then Some(ns[0].name) else Host(ns[1..])
  }

  predicate ProtocolsFit(ps: seq<seq<byte>>) { forall i | 0 <= i < |ps| :: 0 < |ps[i]| < 256 }

  ghost function EncProtocols(ps: seq<seq<byte>>): seq<byte>
    requires ProtocolsFit(ps)
  {
    if ps == [] then [] else [|ps[0]|] + ps[0] + EncProtocols(ps[1..])
  }

  datatype Extension =
    | ServerNames(names: seq<Name>)
    | NextProto
    | Status(body: seq<byte>)
    | Curves(curves: seq<uint16>)
    | Points(points: seq<byte>)
    | Ticket(ticket: seq<byte>)
    | Algorithms(algorithms: seq<uint16>)
    | Renegotiation(secure: seq<byte>)
    | Protocols(protocols: seq<seq<byte>>)
    | Timestamps
    | Other(id: uint16, body: seq<byte>)

  /** The extension can be written down. */
  ghost predicate Shape(e: Extension) {
    match e
    case ServerNames(ns) => NamesFit(ns) && |EncNames(ns)| < 0xFFFE
    case Status(b) => |b| < 0x1_0000
    case Curves(ws) => |ws| < 0x7FFF
    case Points(ps) => |ps| < 256
    case Ticket(b) => |b| < 0x1_0000
    case Algorithms(ws) => |ws| < 0x7FFF
    case Renegotiation(b) => |b| < 256
    case Protocols(ps) => ProtocolsFit(ps) && |EncProtocols(ps)| < 0xFFFE
    case Other(id, b) => |b| < 0x1_0000 && id !in {SERVER_NAME, NEXT_PROTO, STATUS_REQUEST, CURVES, POINTS, TICKET,
                                                     ALGORITHMS, RENEGOTIATION, ALPN, SCT}
    case _ => true
  }

  predicate DottedNames(ns: seq<Name>) { Host(ns).Some? && EndsInDot(Host(ns).value) }

  /** A list of server names whose first host name ends in a dot. */
  predicate Dotted(e: Extension) { e.ServerNames? && DottedNames(e.names) }

  predicate AnyDotted(es: seq<Extension>) { exists i :: 0 <= i < |es| && Dotted(es[i]) }

  function Id(e: Extension): uint16 {
    match e
    case ServerNames(_) => SERVER_NAME
    case NextProto => NEXT_PROTO
    case Status(_) => STATUS_REQUEST
    case Curves(_) => CURVES
    case Points(_) => POINTS
    case Ticket(_) => TICKET
    case Algorithms(_) => ALGORITHMS
    case Renegotiation(_) => RENEGOTIATION
    case Protocols(_) => ALPN
    case Timestamps => SCT
    case Other(id, _) => id
  }

  ghost function Body(e: Extension): (b: seq<byte>)
    requires Shape(e)
    ensures |b| < 0x1_0000
  {
    match e
    case ServerNames(ns) => Enc2(|EncNames(ns)|) + EncNames(ns)
    case Status(b) => b
    case Curves(ws) => Enc2(2 * |ws|) + EncWords(ws)
    case Points(ps) => [|ps|] + ps
    case Ticket(b) => b
    case Algorithms(ws) => Enc2(2 * |ws|) + EncWords(ws)
    case Renegotiation(b) => [|b|] + b
    case Protocols(ps) => Enc2(|EncProtocols(ps)|) + EncProtocols(ps)
    case Other(_, b) => b
    case _ => []
  }

  ghost function EncExtension(e: Extension): seq<byte>
    requires Shape(e)
  {
    Enc2(Id(e)) + Enc2(|Body(e)|) + Body(e)
  }

  ghost predicate Shapes(es: seq<Extension>) { forall i | 0 <= i < |es| :: Shape(es[i]) }

  ghost function EncExtensions(es: seq<Extension>): seq<byte>
    requires Shapes(es)
  {
    if es == [] then [] else EncExtension(es[0]) + EncExtensions(es[1..])
  }

  /** A hello; `front` is the message type and length, and the extensions may be missing. */
  datatype Hello = Hello(front: seq<byte>, vers: uint16, random: seq<byte>, sessionId: seq<byte>, suites: seq<uint16>,
                         compression: seq<byte>, extensions: Option<seq<Extension>>)

  ghost predicate WellFormed(h: Hello) {
    && |h.front| == 4 && |h.random| == 32 && |h.sessionId| <= 32 && |h.suites| < 0x8000 && |h.compression| < 256
    && (h.extensions.Some? ==> Shapes(h.extensions.value) && |EncExtensions(h.extensions.value)| < 0x1_0000)
  }

  ghost function EncBlock(es: Option<seq<Extension>>): seq<byte>
    requires es.Some? ==> Shapes(es.value) && |EncExtensions(es.value)| < 0x1_0000
  {
    if es.None? then [] else Enc2(|EncExtensions(es.value)|) + EncExtensions(es.value)
  }

  ghost function EncTail(h: Hello): seq<byte>
    requires WellFormed(h)
  {
    [|h.compression|] + h.compression + EncBlock(h.extensions)
  }

  ghost function EncSuites(h: Hello): seq<byte>
    requires WellFormed(h)
  {
    Enc2(2 * |h.suites|) + EncWords(h.suites) + EncTail(h)
  }

  ghost function Encode(h: Hello): seq<byte>
    requires WellFormed(h)
  {
    h.front + Enc2(h.vers) + h.random + [|h.sessionId|] + h.sessionId + EncSuites(h)
  }

  // ----- What a hello says -----

  function Effect(m: Exts, e: Extension): Exts {
    match e
    case ServerNames(ns) => if Host(ns).Some? then m.(serverName := Host(ns).value) else m
    case NextProto => m.(nextProto := true)
    case Status(b) => m.(ocsp := |b| > 0 && b[0] == 1)
    case Curves(ws) => m.(curves := ws)
    case Points(ps) => m.(points := ps)
    case Ticket(b) => m.(ticketSupported := true, ticket := b)
    case Algorithms(ws) => m.(algorithms := ws)
    case Renegotiation(b) => m.(secure := b, secureSupported := true)
    case Protocols(ps) => m.(alpn := m.alpn + ps)
    case Timestamps => m.(scts := true)
    case Other(_, _) => m
  }

  function Effects(m: Exts, es: seq<Extension>): Exts
    decreases |es|
  {
    if es == [] then m else Effects(Effect(m, es[0]), es[1..])
  }

  function Said(m: Exts, h: Hello): Exts {
    var n := Reset(m.(secureSupported := m.secureSupported || SCSV in h.suites));
    if h.extensions.None? then n else Effects(n, h.extensions.value)
  }

  // ----- Reading back what was written -----

  lemma {:induction false} WordsBack(ws: seq<uint16>)
    ensures Words(EncWords(ws)) == ws
  {
    if ws != [] {
      WordsBack(ws[1..]);
      assert EncWords(ws)[..2] == Enc2(ws[0]);
      assert EncWords(ws)[2..] == EncWords(ws[1..]);
    }
  }

  lemma {:induction false} NamesStep(kind: byte, name: seq<byte>, rest: seq<byte>, cur: seq<byte>)
    requires |name| < 0x1_0000
    ensures Names([kind] + Enc2(|name|) + name + rest, cur) ==
            if kind == 0 then (if EndsInDot(name) then None else Some(name)) else Names(rest, cur)
  {
    var d := [kind] + Enc2(|name|) + name + rest;
    assert d[1..][..2] == Enc2(|name|);
    assert d[3..3 + |name|] == name && d[3 + |name|..] == rest;
  }

  lemma {:induction false} NamesBack(ns: seq<Name>, cur: seq<byte>)
    requires NamesFit(ns)
    ensures Names(EncNames(ns), cur) ==
            if DottedNames(ns) then None else Some(if Host(ns).Some? then Host(ns).value else cur)
  {
    if ns != [] {
      NamesStep(ns[0].kind, ns[0].name, EncNames(ns[1..]), cur);
      if ns[0].kind != 0 { NamesBack(ns[1..], cur); }
    }
  }

  lemma {:induction false} ProtocolsBack(ps: seq<seq<byte>>, acc: seq<seq<byte>>)
    requires ProtocolsFit(ps)
    ensures ClientHello.Protocols(EncProtocols(ps), acc) == Some(acc + ps)
    decreases |ps|
  {
    if ps != [] {
      var d := EncProtocols(ps);
      assert d[0] == |ps[0]| && |d| - 1 >= |ps[0]|;
      assert d[1..1 + |ps[0]|] == ps[0] && d[1 + |ps[0]|..] == EncProtocols(ps[1..]);
      ProtocolsBack(ps[1..], acc + [ps[0]]);
      assert (acc + [ps[0]]) + ps[1..] == acc + ps;
    } else {
      assert acc + ps == acc;
    }
  }

  lemma {:induction false} Behind2(n: uint16, b: seq<byte>)
    ensures Dec2(Enc2(n) + b) == n && (Enc2(n) + b)[2..] == b && |Enc2(n) + b| == 2 + |b|
  {
  }

  lemma {:induction false} NamesExtBack(m: Exts, ns: seq<Name>)
    requires Shape(ServerNames(ns))
    ensures NamesExt(m, Body(ServerNames(ns))) == if DottedNames(ns) then None else Some(Effect(m, ServerNames(ns)))
  {
    Behind2(|EncNames(ns)|, EncNames(ns));
    NamesBack(ns, m.serverName);
  }

  lemma {:induction false} NumbersExtBack(m: Exts, ws: seq<uint16>)
    requires |ws| < 0x7FFF
    ensures CurvesExt(m, Body(Curves(ws))) == Some(Effect(m, Curves(ws)))
    ensures AlgorithmsExt(m, Body(Algorithms(ws))) == Some(Effect(m, Algorithms(ws)))
  {
    Behind2(2 * |ws|, EncWords(ws));
    WordsBack(ws);
  }

  lemma {:induction false} ProtocolsExtBack(m: Exts, ps: seq<seq<byte>>)
    requires Shape(Extension.Protocols(ps))
    ensures AlpnExt(m, Body(Extension.Protocols(ps))) == Some(Effect(m, Extension.Protocols(ps)))
  {
    Behind2(|EncProtocols(ps)|, EncProtocols(ps));
    ProtocolsBack(ps, m.alpn);
  }

  lemma {:induction false} PlainExtBack(m: Exts, e: Extension)
    requires Shape(e) && (e.Status? || e.Points? || e.Ticket? || e.Renegotiation?)
    ensures Ext(m, Id(e), Body(e)) == Some(Effect(m, e))
  {
  }

  lemma {:induction false} EmptyExtBack(m: Exts, e: Extension)
    requires Shape(e) && (e.NextProto? || e.Timestamps? || e.Other?)
    ensures Ext(m, Id(e), Body(e)) == Some(Effect(m, e))
  {
  }

  /** Which case of the switch an extension gets to. */
  lemma {:induction false} Switch(m: Exts, b: seq<byte>)
    ensures Ext(m, SERVER_NAME, b) == NamesExt(m, b)
    ensures Ext(m, CURVES, b) == CurvesExt(m, b)
    ensures Ext(m, ALGORITHMS, b) == AlgorithmsExt(m, b)
    ensures Ext(m, ALPN, b) == AlpnExt(m, b)
  {
  }

  /** Every extension written down is read back, or refused for a dot. */
  lemma {:induction false} ExtBack(m: Exts, e: Extension)
    requires Shape(e)
    ensures Ext(m, Id(e), Body(e)) == if Dotted(e) then None else Some(Effect(m, e))
  {
    if e.ServerNames? || e.Protocols? { StringsBack(m, e); }
    else if e.Curves? || e.Algorithms? { NumbersBack(m, e); }
    else if e.NextProto? || e.Timestamps? || e.Other? { EmptyExtBack(m, e); }
    else { PlainExtBack(m, e); }
  }

  lemma {:induction false} StringsBack(m: Exts, e: Extension)
    requires Shape(e) && (e.ServerNames? || e.Protocols?)
    ensures Ext(m, Id(e), Body(e)) == if Dotted(e) then None else Some(Effect(m, e))
  {
    Switch(m, Body(e));
    if e.ServerNames? { NamesExtBack(m, e.names); } else { ProtocolsExtBack(m, e.protocols); }
  }

  lemma {:induction false} NumbersBack(m: Exts, e: Extension)
    requires Shape(e) && (e.Curves? || e.Algorithms?)
    ensures Ext(m, Id(e), Body(e)) == Some(Effect(m, e))
  {
    Switch(m, Body(e));
    NumbersExtBack(m, if e.Curves? then e.curves else e.algorithms);
  }

  lemma {:induction false} ExtensionsStep(m: Exts, id: uint16, b: seq<byte>, rest: seq<byte>)
    requires |b| < 0x1_0000
    ensures Extensions(m, Enc2(id) + Enc2(|b|) + b + rest) ==
            if Ext(m, id, b).None? then None else Extensions(Ext(m, id, b).value, rest)
  {
    var d := Enc2(id) + Enc2(|b|) + b + rest;
    assert d[..2] == Enc2(id) && d[2..][..2] == Enc2(|b|);
    assert d[4..4 + |b|] == b && d[4 + |b|..] == rest;
  }

  lemma {:induction false} FirstDotted(es: seq<Extension>)
    requires es != []
    ensures AnyDotted(es) <==> Dotted(es[0]) || AnyDotted(es[1..])
  {
    if AnyDotted(es[1..]) {
      var i :| 0 <= i < |es[1..]| && Dotted(es[1..][i]);
      assert Dotted(es[i + 1]);
    }
  }

  lemma {:induction false} ExtensionsBack(m: Exts, es: seq<Extension>)
    requires Shapes(es)
    ensures Extensions(m, EncExtensions(es)) == if AnyDotted(es) then None else Some(Effects(m, es))
    decreases |es|
  {
    if es != [] {
      FirstDotted(es);
      ExtBack(m, es[0]);
      ExtensionsStep(m, Id(es[0]), Body(es[0]), EncExtensions(es[1..]));
      if !Dotted(es[0]) { ExtensionsBack(Effect(m, es[0]), es[1..]); }
    }
  }

  /** Some list of server names of the hello has a first host name that ends in a dot. */
  predicate Refused(h: Hello) { h.extensions.Some? && AnyDotted(h.extensions.value) }

  lemma {:induction false} BlockBack(m: Exts, h: Hello)
    requires WellFormed(h)
    ensures Block(m, EncBlock(h.extensions)) ==
            if Refused(h) then None else Some(if h.extensions.None? then m else Effects(m, h.extensions.value))
  {
    if h.extensions.Some? {
      var es := h.extensions.value;
      Behind2(|EncExtensions(es)|, EncExtensions(es));
      ExtensionsBack(m, es);
    }
  }

  lemma {:induction false} TailBack(m: Exts, h: Hello)
    requires WellFormed(h)
    ensures Tail(m, EncTail(h)) ==
            if Refused(h) then None
            else Some((h.compression, if h.extensions.None? then Reset(m) else Effects(Reset(m), h.extensions.value)))
  {
    var d, n := EncTail(h), |h.compression|;
    assert d[1..1 + n] == h.compression && d[1 + n..] == EncBlock(h.extensions);
    BlockBack(Reset(m), h);
  }

  lemma {:induction false} Three(a: seq<byte>, b: seq<byte>, c: seq<byte>)
    requires |a| == 2
    ensures (a + b + c)[2..2 + |b|] == b && (a + b + c)[2 + |b|..] == c && (a + b + c)[..2] == a
  {
  }

  lemma {:induction false} SuitesCut(m: Exts, d: seq<byte>, words: seq<byte>, tail: seq<byte>)
    requires |words| % 2 == 0 && |d| == 2 + |words| + |tail| && Dec2(d) == |words|
    requires d[2..2 + |words|] == words && d[2 + |words|..] == tail
    ensures Suites(m, d) ==
            var r := Tail(m.(secureSupported := m.secureSupported || SCSV in Words(words)), tail);
            if r.None? then None else Some((Words(words), r.value.0, r.value.1))
  {
  }

  /** The cipher suites as they stand in front of the tail. */
  lemma {:induction false} SuitesStep(m: Exts, words: seq<byte>, tail: seq<byte>)
    requires |words| % 2 == 0 && |words| < 0x1_0000
    ensures Suites(m, Enc2(|words|) + words + tail) ==
            var r := Tail(m.(secureSupported := m.secureSupported || SCSV in Words(words)), tail);
            if r.None? then None else Some((Words(words), r.value.0, r.value.1))
  {
    var a := Enc2(|words|);
    var d := a + words + tail;
    Three(a, words, tail);
    assert d[0] == a[0] && d[1] == a[1];
    SuitesCut(m, d, words, tail);
  }

  lemma {:induction false} SuitesBack(m: Exts, h: Hello)
    requires WellFormed(h)
    ensures Suites(m, EncSuites(h)) == if Refused(h) then None else Some((h.suites, h.compression, Said(m, h)))
  {
    SuitesStep(m, EncWords(h.suites), EncTail(h));
    WordsBack(h.suites);
    TailBack(m.(secureSupported := m.secureSupported || SCSV in h.suites), h);
  }

  /** Every hello that can be written down: parsing refuses it exactly when one of its lists of
      server names has a first host name that ends in a dot, and recovers all it says otherwise. */
  lemma {:induction false} ParseInvertsEncode(m: Exts, h: Hello)
    requires WellFormed(h)
    ensures Parse(m, Encode(h)) ==
            if Refused(h) then None
            else Some(Msg(h.vers, h.random, h.sessionId, h.suites, h.compression, Said(m, h)))
  {
    var d, n := Encode(h), |h.sessionId|;
    assert d[4..][..2] == Enc2(h.vers) && d[6..38] == h.random;
    assert d[38] == n;
    assert d[39..39 + n] == h.sessionId && d[39 + n..] == EncSuites(h);
    SuitesBack(m, h);
  }

  // ----- The name and the protocols -----

  /** The protocols of all the extensions that carry some. */
  function Offered(es: seq<Extension>): seq<seq<byte>> {
    if es == [] then [] else (if es[0].Protocols? then es[0].protocols else []) + Offered(es[1..])
  }

  lemma {:induction false} EffectAlpn(m: Exts, e: Extension)
    ensures Effect(m, e).alpn == m.alpn + (if e.Protocols? then e.protocols else [])
  {
    assert m.alpn + [] == m.alpn;
  }

  lemma {:induction false} EffectsAlpn(m: Exts, es: seq<Extension>)
    ensures Effects(m, es).alpn == m.alpn + Offered(es)
    decreases |es|
  {
    if es == [] {
      assert m.alpn + [] == m.alpn;
    } else {
      var n, ps := Effect(m, es[0]), if es[0].Protocols? then es[0].protocols else [];
      EffectAlpn(m, es[0]);
      EffectsAlpn(n, es[1..]);
      assert (m.alpn + ps) + Offered(es[1..]) == m.alpn + (ps + Offered(es[1..]));
    }
  }

  lemma {:induction false} EffectsNoName(m: Exts, es: seq<Extension>)
    requires forall i | 0 <= i < |es| :: !es[i].ServerNames?
    ensures Effects(m, es).serverName == m.serverName
    decreases |es|
  {
    if es != [] { EffectsNoName(Effect(m, es[0]), es[1..]); }
  }

  lemma {:induction false} EffectsName(m: Exts, es: seq<Extension>, k: nat)
    requires k < |es| && es[k].ServerNames? && Host(es[k].names).Some?
    requires forall i | 0 <= i < |es| && i != k :: !es[i].ServerNames?
    ensures Effects(m, es).serverName == Host(es[k].names).value
    decreases |es|
  {
    if k == 0 { EffectsNoName(Effect(m, es[0]), es[1..]); } else { EffectsName(Effect(m, es[0]), es[1..], k - 1); }
  }

  /** A hello with one list of server names is accepted exactly when its first host name does
      not end in a dot, and gives that name and all the protocols offered, in order. */
  lemma {:induction false} NameAndProtocols(m: Exts, h: Hello, k: nat)
    requires WellFormed(h) && h.extensions.Some? && k < |h.extensions.value|
    requires h.extensions.value[k].ServerNames? && Host(h.extensions.value[k].names).Some?
    requires forall i | 0 <= i < |h.extensions.value| && i != k :: !h.extensions.value[i].ServerNames?
    ensures var r, name := Parse(m, Encode(h)), Host(h.extensions.value[k].names).value;
      && (r.Some? <==> !EndsInDot(name))
      && (r.Some? ==> r.value.suites == h.suites && r.value.ext.serverName == name
                      && r.value.ext.alpn == Offered(h.extensions.value))
  {
    ParseInvertsEncode(m, h);
    var n := Reset(m.(secureSupported := m.secureSupported || SCSV in h.suites));
    EffectsName(n, h.extensions.value, k);
    EffectsAlpn(n, h.extensions.value);
    assert Dotted(h.extensions.value[k]) <==> AnyDotted(h.extensions.value);
  }

  // ----- Whatever the input -----

  lemma {:induction false} NamesNoDot(d: seq<byte>, cur: seq<byte>)
    requires !EndsInDot(cur) && Names(d, cur).Some?
    ensures !EndsInDot(Names(d, cur).value)
    decreases |d|
  {
    if |d| >= 3 && Dec2(d[1..]) <= |d| - 3 && d[0] != 0 { NamesNoDot(d[3 + Dec2(d[1..])..], cur); }
  }

  lemma {:induction false} ExtNoDot(m: Exts, id: uint16, b: seq<byte>)
    requires !EndsInDot(m.serverName) && Ext(m, id, b).Some?
    ensures !EndsInDot(Ext(m, id, b).value.serverName)
  {
    if id == SERVER_NAME { NamesNoDot(b[2..], m.serverName); }
  }

  lemma {:induction false} ExtensionsNoDot(m: Exts, data: seq<byte>)
    requires !EndsInDot(m.serverName) && Extensions(m, data).Some?
    ensures !EndsInDot(Extensions(m, data).value.serverName)
    decreases |data|
  {
    if data != [] {
      var n := Dec2(data[2..]);
      var b := data[4..4 + n];
      ExtNoDot(m, Dec2(data), b);
      ExtensionsNoDot(Ext(m, Dec2(data), b).value, data[4 + n..]);
    }
  }

  lemma {:induction false} TailNoDot(m: Exts, b: seq<byte>)
    requires Tail(m, b).Some?
    ensures !EndsInDot(Tail(m, b).value.1.serverName)
  {
    var c := b[1 + b[0]..];
    if c != [] { ExtensionsNoDot(Reset(m), c[2..]); }
  }

  lemma {:induction false} SuitesNoDot(m: Exts, a: seq<byte>)
    requires Suites(m, a).Some?
    ensures !EndsInDot(Suites(m, a).value.2.serverName)
  {
    TailNoDot(m.(secureSupported := m.secureSupported || SCSV in Words(a[2..2 + Dec2(a)])), a[2 + Dec2(a)..]);
  }

  /** No name handed out ends in a dot. */
  lemma {:induction false} AcceptedNameHasNoDot(m: Exts, data: seq<byte>)
    requires Parse(m, data).Some?
    ensures !EndsInDot(Parse(m, data).value.ext.serverName)
  {
    SuitesNoDot(m, data[39 + data[38]..]);
  }
}
