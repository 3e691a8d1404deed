/** The byte format of mux messages (nps-master/lib/nps_mux/netpackager.go). */
module MuxCodec {
  import opened Common

  const SEGMENT: nat := 4085               // maximumSegmentSize, the capacity of a content buffer

  // message flags (mux.go)
  const PING: byte := 0
  const NEW_MSG: byte := 3
  const NEW_MSG_PART: byte := 4
  const MSG_SEND_OK: byte := 5
  const PING_RETURN: byte := 8

  predicate Carries(flag: byte) {
    flag == NEW_MSG || flag == NEW_MSG_PART || flag == PING || flag == PING_RETURN
  }

  type int32 = n: int | -0x8000_0000 <= n < 0x8000_0000

  /** A message as its two ends understand it. */
  datatype Frame =
    | Data(flag: byte, id: int32, content: seq<byte>)
    | SendOk(id: int32, window: uint64)
    | Signal(flag: byte, id: int32)

  predicate ValidFrame(f: Frame) {
    match f
    case Data(flag, _, content) => Carries(flag) && |content| <= SEGMENT
    case SendOk(_, _) => true
    case Signal(flag, _) => !Carries(flag) && flag != MSG_SEND_OK
  }

  // ----- Little-endian integers -----

  function Pow256(k: nat): (p: nat)
    ensures p > 0
  {
    if k == 0 then 1 else 256 * Pow256(k - 1)
  }

  function Le(n: nat, k: nat): (bs: seq<byte>)
    ensures |bs| == k
  {
    if k == 0 then [] else [n % 256] + Le(n / 256, k - 1)
  }

  function FromLe(bs: seq<byte>): nat {
    if bs == [] then 0 else bs[0] + 256 * FromLe(bs[1..])
  }

  lemma {:induction false} LeRoundTrip(n: nat, k: nat)
    requires n < Pow256(k)
    ensures FromLe(Le(n, k)) == n
    decreases k
  {
    if k > 0 {
      LeRoundTrip(n / 256, k - 1);
      assert Le(n, k)[1..] == Le(n / 256, k - 1);
    }
  }

  lemma {:induction false} FromLeBound(bs: seq<byte>)
    ensures FromLe(bs) < Pow256(|bs|)
    decreases |bs|
  {
    if bs != [] { FromLeBound(bs[1..]); }
  }

  lemma Powers()
    ensures Pow256(2) == 0x1_0000 && Pow256(4) == 0x1_0000_0000 && Pow256(8) == 0x1_0000_0000_0000_0000
  {
    assert Pow256(1) == 256 && Pow256(3) == 0x100_0000 && Pow256(5) == 0x100_0000_0000;
    assert Pow256(6) == 0x1_0000_0000_0000 && Pow256(7) == 0x100_0000_0000_0000;
  }

  /** `uint32(id)` and `int32(u)`. */
  function ToUnsigned(id: int32): uint32 { if id < 0 then id + 0x1_0000_0000 else id }
  function ToSigned(u: uint32): int32 { if u >= 0x8000_0000 then u - 0x1_0000_0000 else u }

  function ReadU16(bs: seq<byte>): uint16
    requires |bs| == 2
  {
    FromLeBound(bs); Powers(); FromLe(bs)
  }

  function ReadU32(bs: seq<byte>): uint32
    requires |bs| == 4
  {
    FromLeBound(bs); Powers(); FromLe(bs)
  }

  function ReadU64(bs: seq<byte>): uint64
    requires |bs| == 8
  {
    FromLeBound(bs); Powers(); FromLe(bs)
  }

  // ----- The format -----

  function Encode(f: Frame): seq<byte> {
    match f
    case Data(flag, id, content) => [flag] + Le(ToUnsigned(id), 4) + Le(|content|, 2) + content
    case SendOk(id, window) => [MSG_SEND_OK] + Le(ToUnsigned(id), 4) + Le(window, 8)
    case Signal(flag, id) => [flag] + Le(ToUnsigned(id), 4)
  }

  /** The first message of a byte stream, and how many bytes it takes. */
  function Decode(bs: seq<byte>): (r: Option<(Frame, nat)>)
    ensures r.Some? ==> 5 <= r.value.1 <= |bs| && ValidFrame(r.value.0)
  {
    if |bs| < 5 then None
    else
      var flag, id := bs[0], ToSigned(ReadU32(bs[1..5]));
      if Carries(flag) then
        if |bs| < 7 then None
        else
          var n := ReadU16(bs[5..7]);
          if n > SEGMENT || |bs| < 7 + n then None
          else Some((Data(flag, id, bs[7..7 + n]), 7 + n))
      else if flag == MSG_SEND_OK then
        if |bs| < 13 then None
        else Some((SendOk(id, ReadU64(bs[5..13])), 13))
      else Some((Signal(flag, id), 5))
  }

  /** Decoding takes back exactly one encoding, whatever follows it. */
  lemma DecodeEncode(f: Frame, rest: seq<byte>)
    requires ValidFrame(f)
    ensures Decode(Encode(f) + rest) == Some((f, |Encode(f)|))
  {
    Powers();
    var bs := Encode(f) + rest;
    var u := ToUnsigned(f.id);
    LeRoundTrip(u, 4);
    assert bs[1..5] == Le(u, 4);
    match f
    case Data(flag, id, content) =>
      LeRoundTrip(|content|, 2);
      assert bs[5..7] == Le(|content|, 2);
      assert bs[7..7 + |content|] == content;
    case SendOk(id, window) =>
      LeRoundTrip(window, 8);
      assert bs[5..13] == Le(window, 8);
    case Signal(flag, id) =>
  }

  function EncodeAll(fs: seq<Frame>): seq<byte> {
    if fs == [] then [] else Encode(fs[0]) + EncodeAll(fs[1..])
  }

  /** Reads messages until one cannot be read; what is left over is the second part. */
  function DecodeAll(bs: seq<byte>): (seq<Frame>, seq<byte>)
    decreases |bs|
  {
    match Decode(bs)
    case None => ([], bs)
    case Some((f, n)) =>
      var (fs, rest) := DecodeAll(bs[n..]);
      ([f] + fs, rest)
  }

  /** Any sequence of messages survives the stream, and no byte is left over or borrowed. */
  lemma {:induction false} StreamRoundTrip(fs: seq<Frame>)
    requires forall i | 0 <= i < |fs| :: ValidFrame(fs[i])
    ensures DecodeAll(EncodeAll(fs)) == (fs, [])
    decreases |fs|
  {
    if fs != [] {
      var rest := EncodeAll(fs[1..]);
      DecodeEncode(fs[0], rest);
      assert EncodeAll(fs)[|Encode(fs[0])|..] == rest;
      StreamRoundTrip(fs[1..]);
      assert [fs[0]] + fs[1..] == fs;
    }
  }

  /** Different sequences of messages have different encodings. */
  lemma EncodingInjective(fs: seq<Frame>, gs: seq<Frame>)
    requires forall i | 0 <= i < |fs| :: ValidFrame(fs[i])
    requires forall i | 0 <= i < |gs| :: ValidFrame(gs[i])
    requires EncodeAll(fs) == EncodeAll(gs)
    ensures fs == gs
  {
    StreamRoundTrip(fs);
    StreamRoundTrip(gs);
  }

  // ----- The packager -----

  class Sink {
    var out: seq<byte>
    constructor () ensures out == [] { out := []; }
    method Write(bs: seq<byte>)
      modifies this
      ensures out == old(out) + bs
    {
      out := out + bs;
    }
  }

  class Source {
    var rest: seq<byte>
    constructor (bs: seq<byte>) ensures rest == bs { rest := bs; }

    /** `io.ReadFull`: exactly `n` bytes, or an error after reading what there was. */
    method ReadFull(n: nat) returns (bs: seq<byte>, ok: bool)
      modifies this
      ensures ok <==> |old(rest)| >= n
      ensures ok ==> bs == old(rest)[..n] && rest == old(rest)[n..]
      ensures !ok ==> bs == old(rest) && rest == []
    {
      ok := |rest| >= n;
      if ok { bs, rest := rest[..n], rest[n..]; } else { bs, rest := rest, []; }
    }
  }

  /** What `sendInfo` passes along: nothing, bytes, or a window word. */
  datatype Payload = Nothing | Bytes(bs: seq<byte>) | Window(w: uint64)

  class MuxPackager {
    var flag: byte
    var id: int32
    var window: uint64
    var length: uint16
    var content: seq<byte>
    var buf: seq<byte>

    /** A packager as the pool hands it out. */
    constructor ()
      ensures Valid() && length == 0
    {
      flag, id, window, length, content, buf := 0, 0, 0, 0, [], seq(13, _ => 0);
    }

    predicate Valid()
      reads this
    {
      |buf| == 13 && length <= |content| <= SEGMENT
    }

    /** The message the fields stand for. */
    function View(): Frame
      requires Valid()
      reads this
    {
      if Carries(flag) then Data(flag, id, content[..length])
      else if flag == MSG_SEND_OK then SendOk(id, window)
      else Signal(flag, id)
    }

    /** `basePackager.Set`: content over the limit is dropped without an error. */
    method SetContent(bs: seq<byte>)
      modifies this`length, this`content
      ensures |bs| <= SEGMENT ==> content == bs && length == |bs|
      ensures |bs| > SEGMENT ==> content == [] && length == 0
    {
      length, content := 0, [];
      if |bs| > SEGMENT { return; }
      content := bs;
      length := |content|;
    }

    /** `garbage` is what the pooled content buffer still holds. */
    method Set(flag: byte, id: int32, payload: Payload, garbage: seq<byte>)
      requires Valid() && length == 0 && |garbage| == SEGMENT
      requires Carries(flag) ==> !payload.Window?
      requires flag == MSG_SEND_OK ==> payload.Window?
      modifies this
      ensures Valid()
      ensures Carries(flag) && payload.Bytes? && |payload.bs| <= SEGMENT ==> View() == Data(flag, id, payload.bs)
      ensures Carries(flag) && payload.Bytes? && |payload.bs| > SEGMENT ==> View() == Data(flag, id, [])
      ensures Carries(flag) && payload.Nothing? ==> View() == Data(flag, id, [])
      ensures flag == MSG_SEND_OK ==> View() == SendOk(id, payload.w)
      ensures !Carries(flag) && flag != MSG_SEND_OK ==> View() == Signal(flag, id)
    {
      this.flag, this.id := flag, id;
      if Carries(flag) {
        content := garbage;
        if payload.Bytes? {
          SetContent(payload.bs);
          assert content[..length] == content;
        }
      } else if flag == MSG_SEND_OK {
        window := payload.w;
      }
    }

    /** Type and id are the same for every message. */
    method PackHead()
      requires Valid()
      modifies this`buf
      ensures Valid() && buf[..5] == [flag] + Le(ToUnsigned(id), 4)
    {
      buf := [flag] + Le(ToUnsigned(id), 4) + buf[5..];
      assert buf[..5] == [flag] + Le(ToUnsigned(id), 4);
    }

    method PackContent(writer: Sink)
      requires Valid() && buf[..5] == [flag] + Le(ToUnsigned(id), 4)
      modifies this`buf, writer
      ensures Valid()
      ensures writer.out == old(writer.out) + ([flag] + Le(ToUnsigned(id), 4) + Le(length, 2) + content[..length])
    {
      buf := buf[..5] + Le(length, 2) + buf[7..];
      assert buf[..7] == [flag] + Le(ToUnsigned(id), 4) + Le(length, 2);
      writer.Write(buf[..7]);
      writer.Write(content[..length]);
    }

    method Pack(writer: Sink)
      requires Valid()
      modifies this`buf, writer
      ensures Valid() && View() == old(View())
      ensures ValidFrame(View()) && writer.out == old(writer.out) + Encode(View())
    {
      PackHead();
      if Carries(flag) {
        PackContent(writer);
      } else if flag == MSG_SEND_OK {
        buf := buf[..5] + Le(window, 8);
        writer.Write(buf[..13]);
        assert buf[..13] == [flag] + Le(ToUnsigned(id), 4) + Le(window, 8);
      } else {
        writer.Write(buf[..5]);
      }
    }

    /** Succeeds exactly when a message can be decoded, yields it, and consumes its bytes. */
    method UnPack(reader: Source) returns (n: nat, ok: bool)
      requires Valid()
      modifies this, reader
      ensures Valid()
      ensures ok <==> Decode(old(reader.rest)).Some?
      ensures ok ==> Decode(old(reader.rest)) == Some((View(), n)) && reader.rest == old(reader.rest)[n..]
    {
      var stream := reader.rest;
      var bs;
      n, length := 0, 0;
      bs, ok := reader.ReadFull(5);
      if !ok { return; }
      buf := bs + buf[5..];
      n := 5;
      flag, id := buf[0], ToSigned(ReadU32(buf[1..5]));
      assert buf[1..5] == stream[1..5];
      if Carries(flag) {
        length, content := 0, [];
        bs, ok := reader.ReadFull(2);
        if !ok { return; }
        assert bs == stream[5..7];
        buf := buf[..5] + bs + buf[7..];
        n := n + 2;
        var l := ReadU16(bs);
        if l > SEGMENT { ok := false; return; }
        bs, ok := reader.ReadFull(l);
        if !ok { return; }
        assert bs == stream[7..7 + l];
        content, length := bs, l;
        n := n + l;
        assert content[..length] == content;
      } else if flag == MSG_SEND_OK {
        bs, ok := reader.ReadFull(8);
        if !ok { return; }
        assert bs == stream[5..13];
        buf := buf[..5] + bs;
        window := ReadU64(bs);
        n := n + 8;
      }
    }
  }
}
