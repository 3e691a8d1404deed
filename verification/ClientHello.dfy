/** Parsing a TLS ClientHello: section 7.4.1.2 of RFC 5246, section 3 of RFC 6066
    (nps-master/lib/crypt/clientHello.go). */
module ClientHello {
  import opened Common
  import opened Octets

  const SERVER_NAME: uint16 := 0
  const STATUS_REQUEST: uint16 := 5
  const CURVES: uint16 := 10
  const POINTS: uint16 := 11
  const ALGORITHMS: uint16 := 13
  const ALPN: uint16 := 16
  const SCT: uint16 := 18
  const TICKET: uint16 := 35
  const NEXT_PROTO: uint16 := 13172
  const RENEGOTIATION: uint16 := 0xFF01
  const SCSV: uint16 := 0x00FF
  const DOT: byte := 46

  /** The fields of a parsed message. */
  datatype Msg = Msg(vers: uint16, random: seq<byte>, sessionId: seq<byte>, suites: seq<uint16>, compression: seq<byte>,
                     ext: Exts)

  /** Those that the extensions fill in. */
  datatype Exts = Exts(nextProto: bool, serverName: seq<byte>, ocsp: bool, scts: bool, curves: seq<uint16>,
                       points: seq<byte>, ticketSupported: bool, ticket: seq<byte>, algorithms: seq<uint16>,
                       secure: seq<byte>, secureSupported: bool, alpn: seq<seq<byte>>)

  function Dec2(s: seq<byte>): uint16
    requires |s| >= 2
  {
    Value(Word(s[0], s[1]))
  }

  // ----- What parsing computes -----

  function Words(s: seq<byte>): (ws: seq<uint16>)
    ensures |ws| == |s| / 2
  {
    if |s| < 2 then [] else [Dec2(s)] + Words(s[2..])
  }

  predicate EndsInDot(name: seq<byte>) { name != [] && name[|name| - 1] == DOT }

  /** The first host name of the list, or `cur` if there is none; nothing after it is looked at. */
  function Names(d: seq<byte>, cur: seq<byte>): Option<seq<byte>> {
    if d == [] then Some(cur)
    else if |d| < 3 then None
    else
      var n := Dec2(d[1..]);
      if |d| - 3 < n then None
      else if d[0] == 0 then (if EndsInDot(d[3..3 + n]) then None else Some(d[3..3 + n]))
      else Names(d[3 + n..], cur)
  }

  function Protocols(d: seq<byte>, acc: seq<seq<byte>>): Option<seq<seq<byte>>>
    decreases |d|
  {
    if d == [] then Some(acc)
    else if d[0] == 0 || d[0] > |d| - 1 then None
    else Protocols(d[1 + d[0]..], acc + [d[1..1 + d[0]]])
  }

  function NamesExt(m: Exts, b: seq<byte>): Option<Exts> {
    if |b| < 2 || |b| - 2 != Dec2(b) then None
    else
      var r := Names(b[2..], m.serverName);
      if r.None? then None else Some(m.(serverName := r.value))
  }

  function CurvesExt(m: Exts, b: seq<byte>): Option<Exts> {
    if |b| < 2 || Dec2(b) % 2 == 1 || |b| != Dec2(b) + 2 then None else Some(m.(curves := Words(b[2..])))
  }

  function PointsExt(m: Exts, b: seq<byte>): Option<Exts> {
    if |b| < 1 || b[0] != |b| - 1 then None else Some(m.(points := b[1..]))
  }

  function AlgorithmsExt(m: Exts, b: seq<byte>): Option<Exts> {
    if |b| < 2 || |b| % 2 != 0 || Dec2(b) != |b| - 2 then None else Some(m.(algorithms := Words(b[2..])))
  }

  function RenegotiationExt(m: Exts, b: seq<byte>): Option<Exts> {
    if b == [] || b[0] != |b| - 1 then None else Some(m.(secure := b[1..], secureSupported := true))
  }

  function AlpnExt(m: Exts, b: seq<byte>): Option<Exts> {
    if |b| < 2 || Dec2(b) != |b| - 2 then None
    else
      var r := Protocols(b[2..], m.alpn);
      if r.None? then None else Some(m.(alpn := r.value))
  }

  /** One extension. */
  function Ext(m: Exts, id: uint16, b: seq<byte>): Option<Exts> {
    if id == SERVER_NAME then NamesExt(m, b)
    else if id == NEXT_PROTO then (if |b| > 0 then None else Some(m.(nextProto := true)))
    else if id == STATUS_REQUEST then Some(m.(ocsp := |b| > 0 && b[0] == 1))
    else if id == CURVES then CurvesExt(m, b)
    else if id == POINTS then PointsExt(m, b)
    else if id == TICKET then Some(m.(ticketSupported := true, ticket := b))
    else if id == ALGORITHMS then AlgorithmsExt(m, b)
    else if id == RENEGOTIATION then RenegotiationExt(m, b)
    else if id == ALPN then AlpnExt(m, b)
    else if id == SCT then (if |b| != 0 then None else Some(m.(scts := true)))
    else Some(m)
  }

  function Extensions(m: Exts, data: seq<byte>): Option<Exts>
    decreases |data|
  {
    if data == [] then Some(m)
    else if |data| < 4 then None
    else
      var n := Dec2(data[2..]);
      if |data| - 4 < n then None
      else
        var r := Ext(m, Dec2(data), data[4..4 + n]);
        if r.None? then None else Extensions(r.value, data[4 + n..])
  }

  /** The block of extensions, which may be missing. */
  function Block(m: Exts, data: seq<byte>): Option<Exts> {
    if data == [] then Some(m)
    else if |data| < 2 || Dec2(data) != |data| - 2 then None
    else Extensions(m, data[2..])
  }

  /** The fields that are reset before the extensions are read. */
  function Reset(m: Exts): Exts {
    m.(nextProto := false, serverName := [], ocsp := false, ticketSupported := false, ticket := [], algorithms := [],
       alpn := [], scts := false)
  }

  /** From the compression methods on. */
  function Tail(m: Exts, data: seq<byte>): Option<(seq<byte>, Exts)> {
    if |data| < 1 || |data| - 1 < data[0] then None
    else
      var r := Block(Reset(m), data[1 + data[0]..]);
      if r.None? then None else Some((data[1..1 + data[0]], r.value))
  }

  /** From the cipher suites on. */
  function Suites(m: Exts, data: seq<byte>): Option<(seq<uint16>, seq<byte>, Exts)> {
    if |data| < 2 || Dec2(data) % 2 == 1 || |data| < 2 + Dec2(data) then None
    else
      var suites := Words(data[2..2 + Dec2(data)]);
      var r := Tail(m.(secureSupported := m.secureSupported || SCSV in suites), data[2 + Dec2(data)..]);
      if r.None? then None else Some((suites, r.value.0, r.value.1))
  }

  /** A whole message; the type and the length in front are not looked at. */
  function Parse(m: Exts, data: seq<byte>): Option<Msg> {
    if |data| < 42 || data[38] > 32 || |data| < 39 + data[38] then None
    else
      var r := Suites(m, data[39 + data[38]..]);
      if r.None? then None
      else Some(Msg(Dec2(data[4..]), data[6..38], data[39..39 + data[38]], r.value.0, r.value.1, r.value.2))
  }

  // ----- In place -----

  class ClientHelloMsg {
    var vers: uint16
    var random: seq<byte>
    var sessionId: seq<byte>
    var cipherSuites: seq<uint16>
    var compressionMethods: seq<byte>
    var ext: Exts

    constructor ()
      ensures ext == Exts(false, [], false, false, [], [], false, [], [], [], false, [])
    {
      vers, random, sessionId, cipherSuites, compressionMethods := 0, [], [], [], [];
      ext := Exts(false, [], false, false, [], [], false, [], [], [], false, []);
    }

    function Value(): Msg
      reads this
    {
      Msg(vers, random, sessionId, cipherSuites, compressionMethods, ext)
    }

    /** The loop over 16-bit numbers. */
    static method ReadWords(b: seq<byte>) returns (ws: seq<uint16>)
      ensures ws == Words(b)
    {
      ws := [];
      var i := 0;
      while i + 1 < |b|
        invariant i <= |b| && i % 2 == 0
        invariant ws + Words(b[i..]) == Words(b)
        decreases |b| - i
      {
        assert b[i..][2..] == b[i + 2..];
        ws := ws + [Dec2(b[i..])];
        i := i + 2;
      }
    }

    /** The list of server names. */
    method ReadNames(b: seq<byte>) returns (ok: bool)
      modifies this`ext
      ensures ok == Names(b, old(ext).serverName).Some?
      ensures ok ==> ext == old(ext).(serverName := Names(b, old(ext).serverName).value)
    {
      var d := b;
      while |d| > 0
        invariant ext == old(ext) && Names(d, ext.serverName) == Names(b, ext.serverName)
        decreases |d|
      {
        if |d| < 3 { return false; }
        var nameLen := Dec2(d[1..]);
        var rest := d[3..];
        if |rest| < nameLen { return false; }
        if d[0] == 0 {
          assert rest[..nameLen] == d[3..3 + nameLen];
          ext := ext.(serverName := rest[..nameLen]);
          return !EndsInDot(ext.serverName);
        }
        assert rest[nameLen..] == d[3 + nameLen..];
        d := rest[nameLen..];
      }
      ok := true;
    }

    /** The list of application protocols. */
    method ReadProtocols(b: seq<byte>) returns (ok: bool)
      modifies this`ext
      ensures ok == Protocols(b, old(ext).alpn).Some?
      ensures ok ==> ext == old(ext).(alpn := Protocols(b, old(ext).alpn).value)
    {
      var d := b;
      while |d| != 0
        invariant Protocols(d, ext.alpn) == Protocols(b, old(ext).alpn)
        invariant ext == old(ext).(alpn := ext.alpn)
        decreases |d|
      {
        var n := d[0];
        var rest := d[1..];
        if n == 0 || n > |rest| { return false; }
        assert rest[..n] == d[1..1 + d[0]] && rest[n..] == d[1 + d[0]..];
        ext := ext.(alpn := ext.alpn + [rest[..n]]);
        d := rest[n..];
      }
      ok := true;
    }

    /** The cases with a list of names or protocols. */
    method ReadStrings(id: uint16, b: seq<byte>) returns (ok: bool)
      requires id == SERVER_NAME || id == ALPN
      modifies this`ext
      ensures ok == (if id == ALPN then AlpnExt(old(ext), b) else NamesExt(old(ext), b)).Some?
      ensures ok ==> ext == (if id == ALPN then AlpnExt(old(ext), b) else NamesExt(old(ext), b)).value
    {
      if |b| < 2 { return false; }
      if Dec2(b) != |b| - 2 { return false; }
      if id == SERVER_NAME { ok := ReadNames(b[2..]); } else { ok := ReadProtocols(b[2..]); }
    }

    /** The cases with a list of numbers. */
    method ReadNumbers(id: uint16, b: seq<byte>) returns (ok: bool)
      requires id == CURVES || id == ALGORITHMS
      modifies this`ext
      ensures ok == (if id == CURVES then CurvesExt(old(ext), b) else AlgorithmsExt(old(ext), b)).Some?
      ensures ok ==> ext == (if id == CURVES then CurvesExt(old(ext), b) else AlgorithmsExt(old(ext), b)).value
    {
      if |b| < 2 { return false; }
      if Dec2(b) % 2 == 1 || Dec2(b) != |b| - 2 { return false; }
      var ws := ReadWords(b[2..]);
      if id == CURVES { ext := ext.(curves := ws); } else { ext := ext.(algorithms := ws); }
      ok := true;
    }

    /** One case of the switch. */
    method ReadExt(id: uint16, b: seq<byte>) returns (ok: bool)
      modifies this`ext
      ensures ok == Ext(old(ext), id, b).Some? && (ok ==> ext == Ext(old(ext), id, b).value)
    {
      ok := true;
      if id == SERVER_NAME || id == ALPN {
        ok := ReadStrings(id, b);
      } else if id == CURVES || id == ALGORITHMS {
        ok := ReadNumbers(id, b);
      } else if id == NEXT_PROTO {
        if |b| > 0 { return false; }
        ext := ext.(nextProto := true);
      } else if id == STATUS_REQUEST {
        ext := ext.(ocsp := |b| > 0 && b[0] == 1);
      } else if id == POINTS {
        if |b| < 1 || b[0] != |b| - 1 { return false; }
        ext := ext.(points := b[1..]);
      } else if id == TICKET {
        ext := ext.(ticketSupported := true);
        ext := ext.(ticket := b);
      } else if id == RENEGOTIATION {
        if |b| == 0 || b[0] != |b| - 1 { return false; }
        ext := ext.(secure := b[1..]);
        ext := ext.(secureSupported := true);
      } else if id == SCT {
        ext := ext.(scts := true);
        ok := |b| == 0;
      }
    }

    /** The loop over the extensions. */
    method ReadExtensions(block: seq<byte>) returns (ok: bool)
      modifies this`ext
      ensures ok == Extensions(old(ext), block).Some? && (ok ==> ext == Extensions(old(ext), block).value)
    {
      var data := block;
      while |data| != 0
        invariant Extensions(ext, data) == Extensions(old(ext), block)
        decreases |data|
      {
        if |data| < 4 { return false; }
        var id := Dec2(data);
        var length := Dec2(data[2..]);
        var rest := data[4..];
        if |rest| < length { return false; }
        assert rest[..length] == data[4..4 + length] && rest[length..] == data[4 + length..];
        ok := ReadExt(id, rest[..length]);
        if !ok { return; }
        data := rest[length..];
      }
      ok := true;
    }

    /** From the compression methods on. */
    method ReadTail(b: seq<byte>) returns (ok: bool)
      modifies this`ext, this`compressionMethods
      ensures ok == Tail(old(ext), b).Some?
      ensures ok ==> (compressionMethods, ext) == Tail(old(ext), b).value
    {
      if |b| < 1 { return false; }
      if |b| - 1 < b[0] { return false; }
      compressionMethods := b[1..1 + b[0]];
      var data := b[1 + b[0]..];
      ext := Reset(ext);
      if |data| == 0 { return true; }
      if |data| < 2 { return false; }
      if Dec2(data) != |data| - 2 { return false; }
      ok := ReadExtensions(data[2..]);
    }

    /** From the cipher suites on. */
    method ReadSuites(b: seq<byte>) returns (ok: bool)
      modifies this`ext, this`compressionMethods, this`cipherSuites
      ensures ok == Suites(old(ext), b).Some?
      ensures ok ==> (cipherSuites, compressionMethods, ext) == Suites(old(ext), b).value
    {
      if |b| < 2 { return false; }
      var n := Dec2(b);
      if n % 2 == 1 || |b| - 2 < n { return false; }
      cipherSuites := ReadWords(b[2..2 + n]);
      if SCSV in cipherSuites { ext := ext.(secureSupported := true); }
      assert ext == old(ext).(secureSupported := old(ext).secureSupported || SCSV in Words(b[2..2 + n]));
      ok := ReadTail(b[2 + n..]);
    }

    /** Version, random bytes and session identifier. */
    method ReadFront(data: seq<byte>) returns (ok: bool)
      requires |data| >= 42
      modifies this`vers, this`random, this`sessionId
      ensures ok == (data[38] <= 32 && |data| - 39 >= data[38])
      ensures ok ==> vers == Dec2(data[4..]) && random == data[6..38] && sessionId == data[39..39 + data[38]]
    {
      vers := Dec2(data[4..]);
      random := data[6..38];
      var n := data[38];
      if n > 32 || |data| < 39 + n { return false; }
      sessionId := data[39..39 + n];
      ok := true;
    }

    /** `Unmarshal`. */
    method Unmarshal(data: seq<byte>) returns (ok: bool)
      modifies this
      ensures ok == Parse(old(ext), data).Some? && (ok ==> Value() == Parse(old(ext), data).value)
    {
      if |data| < 42 { return false; }
      ok := ReadFront(data);
      if !ok { return; }
      ok := ReadSuites(data[39 + data[38]..]);
    }
  }
}
