/** Stream correctness of the flow control: whatever the interleaving, the chunking and the
    windows, the bytes read are the bytes written, cut where the reads and the writes end. */
module MuxFlowStream {
  import opened Common
  import opened WindowWord
  import opened MuxFlow
  import opened MuxFlowInvariants

  /** The token stream of a sequence of Writes. */
  function StreamOf(written: seq<seq<bv8>>): seq<Tok> {
    if written == [] then [] else MsgToks(written[0]) + StreamOf(written[1..])
  }

  lemma {:induction false} StreamOfAppend(ws: seq<seq<bv8>>, msg: seq<bv8>)
    ensures StreamOf(ws + [msg]) == StreamOf(ws) + MsgToks(msg)
  {
    if ws == [] {
      assert ws + [msg] == [msg] && [msg][1..] == [];
    } else {
      assert (ws + [msg])[1..] == ws[1..] + [msg];
      StreamOfAppend(ws[1..], msg);
    }
  }

  function Toks(fs: seq<Frame>): seq<Tok> {
    if fs == [] then [] else FrameToks(fs[0]) + Toks(fs[1..])
  }

  lemma {:induction false} ToksAppend(fs: seq<Frame>, f: Frame)
    ensures Toks(fs + [f]) == Toks(fs) + FrameToks(f)
  {
    if fs == [] {
      assert fs + [f] == [f] && [f][1..] == [];
    } else {
      assert (fs + [f])[1..] == fs[1..] + [f];
      ToksAppend(fs[1..], f);
    }
  }

  function Joined(rs: seq<ReadRec>): seq<Tok> {
    if rs == [] then [] else Joined(rs[..|rs| - 1]) + rs[|rs| - 1].toks
  }

  /** Frames cut by the writer and not yet taken up by the reader, oldest first. */
  function Pending(s: State): seq<Frame> {
    (if s.d.pc.DTaken? then [s.d.e] else []) + s.q.chain + (if Carrying(s.p) then [s.p.f] else [])
    + s.data + (if Holding(s.w) then [s.w.seg] else [])
  }

  /** The part of the reader's element it has not copied. */
  function Rest(d: Reader): seq<Tok>
    requires d.off <= |d.cur.buf|
  {
    FrameToks(d.cur)[d.off..]
  }

  /** The part of the writer's buffer it has not cut. */
  function Uncut(w: Writer): seq<Tok>
    requires w.off <= |w.buf|
  {
    MsgToks(w.buf)[w.off..]
  }

  predicate NoLast(toks: seq<Tok>) { forall i | 0 <= i < |toks| :: !toks[i].last }

  /** A finished Read stops at the end of its buffer or of a Write, whichever is first. */
  predicate GoodRead(r: ReadRec) {
    && 0 < |r.toks| <= r.size
    && NoLast(r.toks[..|r.toks| - 1])
    && (|r.toks| == r.size || r.toks[|r.toks| - 1].last)
  }

  /** Nothing is lost, repeated or reordered between Write and Read. */
  predicate FlowInv(s: State) {
    && s.w.off <= |s.w.buf| && s.d.off <= |s.d.cur.buf|
    && StreamOf(s.h.written) == s.h.consumed + (Rest(s.d) + (Toks(Pending(s)) + Uncut(s.w)))
  }

  predicate ReadInv'(d: Reader, h: History) {
    && h.consumed == Joined(h.finished) + (if d.pc.DIdle? then [] else d.got)
    && (forall i | 0 <= i < |h.finished| :: GoodRead(h.finished[i]))
    && (Popping(d) || d.pc.DCopy? ==> NoLast(d.got))
    && (Reporting(d) && |d.got| > 0 ==>
          NoLast(d.got[..|d.got| - 1]) && (d.got[|d.got| - 1].last <==> !d.cur.part))
  }

  predicate StreamInv(s: State) {
    && FlowInv(s) && ReadInv'(s.d, s.h)
    && (forall i | 0 <= i < |s.h.written| :: 0 < |s.h.written[i]|)
  }

  /** Two states that agree on every byte and every recorded event. */
  predicate SameBytes(s: State, t: State) {
    && t.h.written == s.h.written && t.h.consumed == s.h.consumed && t.h.finished == s.h.finished
    && t.w.buf == s.w.buf && t.w.off == s.w.off && t.w.seg == s.w.seg && Holding(t.w) == Holding(s.w)
    && t.data == s.data && t.p.f == s.p.f && Carrying(t.p) == Carrying(s.p) && t.q.chain == s.q.chain
    && t.d.cur == s.d.cur && t.d.off == s.d.off && t.d.got == s.d.got && t.d.e == s.d.e
    && t.d.pc.DTaken? == s.d.pc.DTaken? && Popping(t.d) == Popping(s.d) && Reporting(t.d) == Reporting(s.d)
    && t.d.pc.DIdle? == s.d.pc.DIdle? && t.d.pc.DCopy? == s.d.pc.DCopy?
  }

  /** Two states that agree on both ends of the stream and on what was recorded. */
  predicate SameEnds(s: State, t: State) {
    && t.h.written == s.h.written && t.h.consumed == s.h.consumed && t.h.finished == s.h.finished
    && t.w.buf == s.w.buf && t.w.off == s.w.off
    && t.d.cur == s.d.cur && t.d.off == s.d.off && t.d.got == s.d.got
    && Popping(t.d) == Popping(s.d) && Reporting(t.d) == Reporting(s.d)
    && t.d.pc.DIdle? == s.d.pc.DIdle? && t.d.pc.DCopy? == s.d.pc.DCopy?
  }

  /** Frames only change places on the way. */
  lemma SamePendingFlow(s: State, t: State)
    requires FlowInv(s) && SameEnds(s, t) && Pending(t) == Pending(s)
    ensures FlowInv(t)
  {
    assert Rest(t.d) == Rest(s.d) && Uncut(t.w) == Uncut(s.w);
  }

  lemma SamePendingStream(s: State, t: State)
    requires StreamInv(s) && SameEnds(s, t) && Pending(t) == Pending(s)
    ensures StreamInv(t)
  {
    SamePendingFlow(s, t);
  }

  lemma SameBytesPending(s: State, t: State)
    requires SameBytes(s, t)
    ensures Pending(t) == Pending(s) && SameEnds(s, t)
  {
  }

  lemma QuietStream(s: State, t: State)
    requires StreamInv(s) && SameBytes(s, t)
    ensures StreamInv(t)
  {
    SameBytesPending(s, t);
    SamePendingStream(s, t);
  }

  lemma WritingQuiet(s: State)
    ensures s.w.pc.WMark? ==> SameBytes(s, WSetWait(s))
    ensures s.w.pc.WSized? ==> SameBytes(s, WSentLoad(s))
    ensures s.w.pc.WSent? ==> SameBytes(s, WSentSwap(s))
  {
  }

  lemma SizingQuiet(s: State)
    ensures s.z.pc.SIdle? && s.credits != [] ==> SameBytes(s, SReceive(s))
    ensures s.z.pc.SLoop? ==> SameBytes(s, SLoad(s))
    ensures s.z.pc.SSwap? ==> SameBytes(s, STrySwap(s))
    ensures s.z.pc.SAllow? && s.w.pc.WBlocked? ==> SameBytes(s, Allow(s))
  {
  }

  lemma PushingQuiet(s: State)
    ensures s.p.pc.RCalc? ==> SameBytes(s, RKeepSize(s)) && forall max :: SameBytes(s, RSetSize(s, max))
    ensures s.p.pc.RLoad? ==> SameBytes(s, RLoadWord(s))
    ensures s.p.pc.RLen? ==> SameBytes(s, RReadLen(s))
    ensures s.p.pc.RSwap? ==> SameBytes(s, RTrySwap(s))
    ensures s.p.pc.RCount? ==> SameBytes(s, RAddLen(s))
    ensures s.p.pc.RWake? && s.d.pc.DBlocked? ==> SameBytes(s, RAllowPop(s))
    ensures s.p.pc.RCredit? ==> SameBytes(s, RSendInfo(s))
  {
  }

  lemma ReadingQuiet(s: State)
    ensures s.d.pc.DPop? ==> SameBytes(s, DLoadLen(s))
    ensures s.d.pc.DMark? ==> SameBytes(s, DSetWait(s))
    ensures s.d.pc.DStat? ==> SameBytes(s, DLoadWord(s))
    ensures s.d.pc.DStatLen? ==> SameBytes(s, DReadLen(s))
  {
  }

  lemma WritePending(s: State, msg: seq<bv8>)
    requires WriterShape(s.w) && s.w.pc.WIdle?
    ensures var t := Write(s, msg);
      Pending(t) == Pending(s) && Uncut(s.w) == [] && Uncut(t.w) == MsgToks(msg)
  {
  }

  lemma MoveOn(a: seq<Tok>, b: seq<Tok>, c: seq<Tok>, u0: seq<Tok>, x: seq<Tok>)
    requires u0 == []
    ensures (a + (b + (c + u0))) + x == a + (b + (c + x))
  {
  }

  lemma WriteFlow(s: State, msg: seq<bv8>)
    requires FlowInv(s) && WriterShape(s.w) && s.w.pc.WIdle?
    ensures FlowInv(Write(s, msg))
  {
    StreamOfAppend(s.h.written, msg);
    WritePending(s, msg);
    MoveOn(s.h.consumed, Rest(s.d), Toks(Pending(s)), Uncut(s.w), MsgToks(msg));
  }

  lemma WriteStream(s: State, msg: seq<bv8>)
    requires StreamInv(s) && WriterShape(s.w) && s.w.pc.WIdle? && 0 < |msg|
    ensures StreamInv(Write(s, msg))
  {
    WriteFlow(s, msg);
  }

  /** A cut segment carries exactly the tokens it takes from the buffer. */
  lemma CutToks(w: Writer, n: nat)
    requires w.off + n <= |w.buf|
    ensures FrameToks(Frame(w.buf[w.off..w.off + n], n < |w.buf| - w.off)) == MsgToks(w.buf)[w.off..w.off + n]
  {
  }

  /** Tokens that move from the end `u0` to the middle `c`. */
  lemma MoveIn(a: seq<Tok>, b: seq<Tok>, c: seq<Tok>, x: seq<Tok>, u: seq<Tok>, c1: seq<Tok>, u0: seq<Tok>)
    requires u0 == x + u && c1 == c + x
    ensures a + (b + (c + u0)) == a + (b + (c1 + u))
  {
    assert c + (x + u) == (c + x) + u;
  }

  lemma CutUncut(w: Writer, n: nat, v: Writer)
    requires w.off + n <= |w.buf| && v.buf == w.buf && v.off == w.off + n
    requires v.seg == Frame(w.buf[w.off..w.off + n], n < |w.buf| - w.off)
    ensures Uncut(w) == FrameToks(v.seg) + Uncut(v)
  {
    CutToks(w, n);
  }

  lemma CutPending(s: State, t: State)
    requires !Holding(s.w) && t == s.(w := t.w) && t.w.pc.WSized?
    ensures Toks(Pending(t)) == Toks(Pending(s)) + FrameToks(t.w.seg)
  {
    assert Pending(t) == Pending(s) + [t.w.seg];
    ToksAppend(Pending(s), t.w.seg);
  }

  /** Cutting moves the tokens of one segment from the buffer to the frames on the way. */
  lemma CutFlow(s: State, t: State, n: nat)
    requires FlowInv(s) && !Holding(s.w) && s.w.off + n <= |s.w.buf|
    requires t == s.(w := t.w) && t.w.pc.WSized? && t.w.buf == s.w.buf && t.w.off == s.w.off + n
    requires t.w.seg == Frame(s.w.buf[s.w.off..s.w.off + n], n < |s.w.buf| - s.w.off)
    ensures FlowInv(t)
  {
    CutUncut(s.w, n, t.w);
    CutPending(s, t);
    MoveIn(s.h.consumed, Rest(s.d), Toks(Pending(s)), FrameToks(t.w.seg), Uncut(t.w), Toks(Pending(t)), Uncut(s.w));
  }

  lemma WLoadStream(s: State)
    requires StreamInv(s) && s.w.pc.WStart?
    ensures StreamInv(WLoad(s))
  {
    var t, remain := WLoad(s), Remaining(s.sw.max, s.sw.done);
    if remain == 0 {
      assert SameBytes(s, t);
    } else {
      CutFlow(s, t, Min(Min(|s.w.buf| - s.w.off, SEGMENT), remain));
    }
  }

  lemma WSendInfoPending(s: State)
    requires s.w.pc.WSend?
    ensures Pending(WSendInfo(s)) == Pending(s) && SameEnds(s, WSendInfo(s))
  {
  }

  lemma WSendInfoStream(s: State)
    requires StreamInv(s) && s.w.pc.WSend?
    ensures StreamInv(WSendInfo(s))
  {
    WSendInfoPending(s);
    SamePendingStream(s, WSendInfo(s));
  }

  lemma RReceivePending(s: State)
    requires s.p.pc.RIdle? && s.data != []
    ensures Pending(RReceive(s)) == Pending(s) && SameEnds(s, RReceive(s))
  {
    assert s.data == [s.data[0]] + s.data[1..];
  }

  lemma RReceiveStream(s: State)
    requires StreamInv(s) && s.p.pc.RIdle? && s.data != []
    ensures StreamInv(RReceive(s))
  {
    RReceivePending(s);
    SamePendingStream(s, RReceive(s));
  }

  lemma REnqueuePending(s: State)
    requires s.p.pc.RPush?
    ensures Pending(REnqueue(s)) == Pending(s) && SameEnds(s, REnqueue(s))
  {
  }

  lemma REnqueueStream(s: State)
    requires StreamInv(s) && s.p.pc.RPush?
    ensures StreamInv(REnqueue(s))
  {
    REnqueuePending(s);
    SamePendingStream(s, REnqueue(s));
  }

  lemma ReadPending(s: State, n: nat)
    requires s.d.pc.DIdle?
    ensures Pending(Read(s, n)) == Pending(s)
  {
  }

  lemma ReadStream(s: State, n: nat)
    requires StreamInv(s) && ReaderShape(s.d) && s.d.pc.DIdle? && n > 0
    ensures StreamInv(Read(s, n))
  {
    ReadPending(s, n);
    assert Rest(Read(s, n).d) == Rest(s.d);
  }

  lemma DDequeuePending(s: State)
    requires s.d.pc.DTake? && s.q.chain != []
    ensures Pending(DDequeue(s)) == Pending(s) && SameEnds(s, DDequeue(s))
  {
    assert s.q.chain == [s.q.chain[0]] + s.q.chain[1..];
  }

  lemma DDequeueStream(s: State)
    requires StreamInv(s) && s.d.pc.DTake? && s.q.chain != []
    ensures StreamInv(DDequeue(s))
  {
    DDequeuePending(s);
    SamePendingStream(s, DDequeue(s));
  }

  lemma TakenToks(s: State)
    requires s.d.pc.DTaken?
    ensures Toks(Pending(s)) == FrameToks(s.d.e) + Toks(Pending(DSubLen(s)))
  {
    var t := DSubLen(s);
    assert Pending(s) == [s.d.e] + Pending(t);
    assert Pending(s)[0] == s.d.e && Pending(s)[1..] == Pending(t);
  }

  lemma MoveUp(a: seq<Tok>, b0: seq<Tok>, x: seq<Tok>, c: seq<Tok>, u: seq<Tok>, c0: seq<Tok>)
    requires b0 == [] && c0 == x + c
    ensures a + (b0 + (c0 + u)) == a + (x + (c + u))
  {
    assert (x + c) + u == x + (c + u);
  }

  /** The element the reader has taken becomes the one it copies from. */
  lemma DSubLenFlow(s: State)
    requires FlowInv(s) && ReaderShape(s.d) && s.d.pc.DTaken?
    ensures FlowInv(DSubLen(s))
  {
    var t := DSubLen(s);
    TakenToks(s);
    assert Rest(s.d) == [] && Rest(t.d) == FrameToks(s.d.e);
    MoveUp(s.h.consumed, Rest(s.d), Rest(t.d), Toks(Pending(t)), Uncut(s.w), Toks(Pending(s)));
  }

  lemma DSubLenStream(s: State)
    requires StreamInv(s) && ReaderShape(s.d) && s.d.pc.DTaken?
    ensures StreamInv(DSubLen(s))
  {
    DSubLenFlow(s);
  }

  lemma AfterCopyFlow(s: State)
    requires FlowInv(s) && !s.d.pc.DTaken?
    ensures FlowInv(AfterCopy(s)) && AfterCopy(s).h.written == s.h.written
  {
    var t := AfterCopy(s);
    AfterCopyPending(s);
    assert Rest(t.d) == Rest(s.d) && Uncut(t.w) == Uncut(s.w);
  }

  lemma AfterCopyPending(s: State)
    requires !s.d.pc.DTaken?
    ensures Pending(AfterCopy(s)) == Pending(s)
  {
  }

  lemma JoinedSnoc(rs: seq<ReadRec>, r: ReadRec)
    ensures Joined(rs + [r]) == Joined(rs) + r.toks
  {
    assert (rs + [r])[..|rs|] == rs;
  }

  /** What is recorded after a copy: nothing yet, or a Read that ends where it must. */
  lemma AfterCopyRead(s: State)
    requires s.d.off <= |s.d.cur.buf| && s.h.consumed == Joined(s.h.finished) + s.d.got
    requires forall i | 0 <= i < |s.h.finished| :: GoodRead(s.h.finished[i])
    requires 0 < |s.d.got| <= s.d.size && NoLast(s.d.got[..|s.d.got| - 1])
    requires s.d.off == |s.d.cur.buf| ==> (s.d.got[|s.d.got| - 1].last <==> !s.d.cur.part)
    requires s.d.off < |s.d.cur.buf| ==> |s.d.got| == s.d.size
    ensures ReadInv'(AfterCopy(s).d, AfterCopy(s).h)
  {
    var r := ReadRec(s.d.size, s.d.got);
    if |s.d.got| < s.d.size && s.d.cur.part {
      assert s.d.got == s.d.got[..|s.d.got| - 1] + [s.d.got[|s.d.got| - 1]];
    } else {
      JoinedSnoc(s.h.finished, r);
      assert GoodRead(r);
    }
  }

  /** `AfterCopy` keeps the stream and records a Read that ends where it must. */
  lemma AfterCopyStream(s: State)
    requires FlowInv(s) && !s.d.pc.DTaken? && (forall i | 0 <= i < |s.h.written| :: 0 < |s.h.written[i]|)
    requires s.h.consumed == Joined(s.h.finished) + s.d.got
    requires forall i | 0 <= i < |s.h.finished| :: GoodRead(s.h.finished[i])
    requires 0 < |s.d.got| <= s.d.size && NoLast(s.d.got[..|s.d.got| - 1])
    requires s.d.off == |s.d.cur.buf| ==> (s.d.got[|s.d.got| - 1].last <==> !s.d.cur.part)
    requires s.d.off < |s.d.cur.buf| ==> |s.d.got| == s.d.size
    ensures StreamInv(AfterCopy(s))
  {
    AfterCopyFlow(s);
    AfterCopyRead(s);
  }

  /** The state of the reader in the middle of `DCopyOut`. */
  function Copied(s: State, n: nat): State
    requires s.d.off + n <= |s.d.cur.buf|
  {
    var toks := FrameToks(s.d.cur)[s.d.off..s.d.off + n];
    s.(d := s.d.(got := s.d.got + toks, off := s.d.off + n), h := s.h.(consumed := s.h.consumed + toks))
  }

  lemma CopiedPending(s: State, n: nat)
    requires s.d.off + n <= |s.d.cur.buf|
    ensures Pending(Copied(s, n)) == Pending(s)
  {
  }

  lemma MoveOut(a: seq<Tok>, x: seq<Tok>, b: seq<Tok>, c: seq<Tok>, b0: seq<Tok>)
    requires b0 == x + b
    ensures a + (b0 + c) == (a + x) + (b + c)
  {
  }

  lemma CopiedFlow(s: State, n: nat)
    requires FlowInv(s) && s.d.off + n <= |s.d.cur.buf|
    ensures FlowInv(Copied(s, n))
  {
    var t, toks := Copied(s, n), FrameToks(s.d.cur)[s.d.off..s.d.off + n];
    assert Rest(s.d) == toks + Rest(t.d);
    CopiedPending(s, n);
    MoveOut(s.h.consumed, toks, Rest(t.d), Toks(Pending(s)) + Uncut(s.w), Rest(s.d));
  }

  /** Only the final byte of an element can be the final byte of a Write. */
  lemma CopiedToks(d: Reader, n: nat)
    requires NoLast(d.got) && 0 < n && d.off + n <= |d.cur.buf|
    ensures var got := d.got + FrameToks(d.cur)[d.off..d.off + n];
      && NoLast(got[..|got| - 1])
      && (got[|got| - 1].last <==> d.off + n == |d.cur.buf| && !d.cur.part)
  {
    var toks := FrameToks(d.cur)[d.off..d.off + n];
    assert (d.got + toks)[..|d.got| + n - 1] == d.got + toks[..n - 1];
  }

  lemma CopiedRead(s: State, n: nat)
    requires ReadInv'(s.d, s.h) && s.d.pc.DCopy? && 0 < n && s.d.off + n <= |s.d.cur.buf|
    ensures var t := Copied(s, n);
      && t.h.consumed == Joined(t.h.finished) + t.d.got
      && NoLast(t.d.got[..|t.d.got| - 1])
      && (t.d.got[|t.d.got| - 1].last <==> t.d.off == |t.d.cur.buf| && !t.d.cur.part)
  {
    CopiedToks(s.d, n);
  }

  /** Bytes have just been copied and nothing has been reported or recorded yet. */
  predicate Filled(s: State) {
    && FlowInv(s) && !s.d.pc.DTaken? && (forall i | 0 <= i < |s.h.written| :: 0 < |s.h.written[i]|)
    && s.h.consumed == Joined(s.h.finished) + s.d.got
    && (forall i | 0 <= i < |s.h.finished| :: GoodRead(s.h.finished[i]))
    && 0 < |s.d.got| <= s.d.size && NoLast(s.d.got[..|s.d.got| - 1])
    && (s.d.got[|s.d.got| - 1].last <==> s.d.off == |s.d.cur.buf| && !s.d.cur.part)
  }

  lemma CopiedFilled(s: State, n: nat)
    requires StreamInv(s) && s.d.pc.DCopy? && 0 < n && s.d.off + n <= |s.d.cur.buf| && |s.d.got| + n <= s.d.size
    ensures Filled(Copied(s, n))
  {
    CopiedFlow(s, n);
    CopiedRead(s, n);
  }

  lemma FilledReports(s: State)
    requires Filled(s) && s.d.off == |s.d.cur.buf|
    ensures StreamInv(s.(d := s.d.(pc := DStat)))
  {
    BeginReport(s);
  }

  lemma FilledFinishes(s: State)
    requires Filled(s) && s.d.off < |s.d.cur.buf| && |s.d.got| == s.d.size
    ensures StreamInv(AfterCopy(s))
  {
    AfterCopyStream(s);
  }

  lemma DCopyOutStream(s: State)
    requires StreamInv(s) && ReaderShape(s.d) && s.d.pc.DCopy?
    ensures StreamInv(DCopyOut(s))
  {
    var n := Min(|s.d.cur.buf| - s.d.off, s.d.size - |s.d.got|);
    CopiedFilled(s, n);
    DCopyOutForms(s, n);
    if s.d.off + n == |s.d.cur.buf| { FilledReports(Copied(s, n)); } else { FilledFinishes(Copied(s, n)); }
  }

  lemma BeginReport(s: State)
    requires FlowInv(s) && !s.d.pc.DTaken? && (forall i | 0 <= i < |s.h.written| :: 0 < |s.h.written[i]|)
    requires s.h.consumed == Joined(s.h.finished) + s.d.got
    requires forall i | 0 <= i < |s.h.finished| :: GoodRead(s.h.finished[i])
    requires 0 < |s.d.got| && NoLast(s.d.got[..|s.d.got| - 1]) && (s.d.got[|s.d.got| - 1].last <==> !s.d.cur.part)
    ensures StreamInv(s.(d := s.d.(pc := DStat)))
  {
    assert Pending(s.(d := s.d.(pc := DStat))) == Pending(s);
  }

  lemma DCopyOutForms(s: State, n: nat)
    requires ReaderShape(s.d) && s.d.pc.DCopy? && n == Min(|s.d.cur.buf| - s.d.off, s.d.size - |s.d.got|)
    ensures var t := Copied(s, n);
      DCopyOut(s) == if t.d.off == |t.d.cur.buf| then t.(d := t.d.(pc := DStat)) else AfterCopy(t)
  {
  }

  /** What the swap in `sendStatus` can do, leaving aside the words it writes. */
  lemma DTrySwapForms(s: State)
    ensures var t := DTrySwap(s);
      || t == s.(d := s.d.(pc := DStat))
      || t == s.(rw := t.rw, d := s.d.(pc := DStatSend, c := t.d.c))
      || t == AfterCopy(s.(rw := t.rw))
  {
  }

  lemma DTrySwapStream(s: State)
    requires StreamInv(s) && ReaderShape(s.d) && s.d.pc.DStatSwap?
    ensures StreamInv(DTrySwap(s))
  {
    var t := DTrySwap(s);
    DTrySwapForms(s);
    if t == AfterCopy(s.(rw := t.rw)) {
      assert Pending(s.(rw := t.rw)) == Pending(s);
      AfterCopyStream(s.(rw := t.rw));
    } else {
      QuietStream(s, t);
    }
  }

  lemma DSendInfoStream(s: State)
    requires StreamInv(s) && ReaderShape(s.d) && s.d.pc.DStatSend?
    ensures StreamInv(DSendInfo(s))
  {
    var t := s.(credits := s.credits + [s.d.c]);
    assert Pending(t) == Pending(s);
    AfterCopyStream(t);
  }

  lemma StepStream(s: State, st: Step)
    requires Shape(s) && StreamInv(s) && Enabled(s, st)
    ensures StreamInv(Do(s, st))
  {
    match st
    case AppWrite(msg) => WriteStream(s, msg);
    case AppRead(n) => ReadStream(s, n);
    case StWLoad => WLoadStream(s);
    case StWSendInfo => WSendInfoStream(s);
    case StRReceive => RReceiveStream(s);
    case StREnqueue => REnqueueStream(s);
    case StDDequeue => DDequeueStream(s);
    case StDSubLen => DSubLenStream(s);
    case StDCopyOut => DCopyOutStream(s);
    case StDTrySwap => DTrySwapStream(s);
    case StDSendInfo => DSendInfoStream(s);
    case _ =>
      WritingQuiet(s);
      SizingQuiet(s);
      PushingQuiet(s);
      ReadingQuiet(s);
      QuietStream(s, Do(s, st));
  }

  lemma {:induction false} ExecStream(s: State, run: seq<Step>)
    requires Inv(s) && StreamInv(s) && Exec(s, run).Some?
    ensures StreamInv(Exec(s, run).value)
    decreases |run|
  {
    if run != [] {
      StepInv(s, run[0]);
      StepStream(s, run[0]);
      ExecStream(Do(s, run[0]), run[1..]);
    }
  }
}
