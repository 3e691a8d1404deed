/** What every step of the flow control keeps: the shape of each thread's position, the
    wakeup handshakes, the queue length, credit conservation and the window bound. */
module MuxFlowInvariants {
  import opened Common
  import opened WindowWord
  import opened MuxFlow

  function Bytes(fs: seq<Frame>): nat {
    if fs == [] then 0 else |fs[0].buf| + Bytes(fs[1..])
  }

  lemma BytesAppend(fs: seq<Frame>, f: Frame)
    ensures Bytes(fs + [f]) == Bytes(fs) + |f.buf|
  {
    if fs == [] {
      assert fs + [f] == [f];
    } else {
      assert (fs + [f])[1..] == fs[1..] + [f];
      BytesAppend(fs[1..], f);
    }
  }

  function SumRead(cs: seq<Credit>): nat {
    if cs == [] then 0 else cs[0].read + SumRead(cs[1..])
  }

  lemma SumReadAppend(cs: seq<Credit>, c: Credit)
    ensures SumRead(cs + [c]) == SumRead(cs) + c.read
  {
    if cs == [] {
      assert cs + [c] == [c];
    } else {
      assert (cs + [c])[1..] == cs[1..] + [c];
      SumReadAppend(cs[1..], c);
    }
  }

  // ----- Shape: where each thread can be and what it holds there -----

  predicate FrameOk(f: Frame) { 0 < |f.buf| <= SEGMENT }

  predicate FramesOk(fs: seq<Frame>) { forall i | 0 <= i < |fs| :: FrameOk(fs[i]) }

  predicate WriterShape(w: Writer) {
    && w.off <= |w.buf| < MAX_BUFFER
    && (w.pc.WIdle? ==> w.off == |w.buf|)
    && (w.pc.WStart? || w.pc.WMark? || w.pc.WBlocked? ==> w.off < |w.buf|)
    && (Holding(w) ==> FrameOk(w.seg))
  }

  /** The writer has cut a segment and not yet handed it over. */
  predicate Holding(w: Writer) { w.pc.WSized? || w.pc.WSent? || w.pc.WSend? }

  /** The receiving mux reader has a frame that is not in the queue yet. */
  predicate Carrying(p: Pusher) { !p.pc.RIdle? && !p.pc.RWake? && !p.pc.RCredit? }

  /** The receiving mux reader still has to send a credit. */
  predicate Owing(p: Pusher) { p.pc.RCredit? || (p.owes && (p.pc.RCount? || p.pc.RPush? || p.pc.RWake?)) }

  /** The reader is looking for its next element. */
  predicate Popping(d: Reader) { d.pc.DPop? || d.pc.DMark? || d.pc.DBlocked? || d.pc.DTake? || d.pc.DTaken? }

  /** The reader has consumed its element and is reporting it. */
  predicate Reporting(d: Reader) { d.pc.DStat? || d.pc.DStatLen? || d.pc.DStatSwap? || d.pc.DStatSend? }

  predicate ReaderShape(d: Reader) {
    && d.off <= |d.cur.buf| <= SEGMENT
    && (Popping(d) ==> d.off == |d.cur.buf| && |d.got| < d.size)
    && (d.pc.DCopy? ==> d.off < |d.cur.buf| && |d.got| < d.size)
    && (Reporting(d) ==> 0 < |d.cur.buf| == d.off && 0 < |d.got| <= d.size)
    && (d.pc.DTaken? ==> FrameOk(d.e))
  }

  predicate Shape(s: State) {
    && WriterShape(s.w)
    && ReaderShape(s.d)
    && FramesOk(s.data)
    && FramesOk(s.q.chain)
    && (Carrying(s.p) ==> FrameOk(s.p.f))
  }

  // ----- Handshakes: each wait flag belongs to a blocked thread -----

  predicate SendWaitInv(s: State) {
    && (s.sw.wait ==> s.w.pc.WBlocked? && !s.z.pc.SAllow? && s.sw.done >= s.sw.max)
    && (s.w.pc.WBlocked? ==> s.sw.wait || s.z.pc.SAllow?)
    && (s.z.pc.SAllow? ==> s.w.pc.WBlocked?)
    && (s.z.pc.SLoop? ==> !s.z.newWait)
    && (s.z.pc.SSwap? ==>
          && (s.z.ptrs.wait ==> s.sw == s.z.ptrs)
          && s.z.c.read <= s.z.ptrs.done
          && (s.z.newWait <==> s.z.ptrs.wait && s.z.ptrs.done - s.z.c.read >= s.z.c.max))
    && (s.w.pc.WMark? ==> s.w.ptrs.done >= s.w.ptrs.max)
    && s.h.marks == s.h.allows + (if s.w.pc.WBlocked? then 1 else 0)
  }

  predicate QueueWaitInv(s: State) {
    var waking := (s.p.pc.RPush? && s.p.wake) || s.p.pc.RWake?;
    && (s.q.wait ==> s.d.pc.DBlocked? && s.q.len == 0)
    && (s.d.pc.DBlocked? ==> s.q.wait || waking)
    && (waking ==> s.d.pc.DBlocked? && !s.q.wait)
  }

  // ----- The queue's length word -----

  predicate LenInv(s: State) {
    && s.q.len == Bytes(s.q.chain) + (if s.p.pc.RPush? then |s.p.f.buf| else 0)
                  + (if s.d.pc.DTaken? then |s.d.e.buf| else 0)
    && (s.d.pc.DTake? ==> s.q.len > 0)
    && (s.d.pc.DStatSwap? ==> s.d.qlen <= s.q.len)
    // unreported bytes keep company: something still has to pass through sendStatus
    && (s.rw.done > 0 ==> s.q.len > 0 || Unreported(s.d) > 0)
  }

  /** Bytes of the reader's element not yet accounted in the receive window. */
  function Unreported(d: Reader): nat {
    if d.off < |d.cur.buf| || (Reporting(d) && !d.pc.DStatSend?) then |d.cur.buf| else 0
  }

  // ----- Credit conservation -----

  /** A segment cut but not yet added to the sender's count. */
  function Uncounted(w: Writer): nat {
    if w.pc.WSized? || w.pc.WSent? then |w.seg.buf| else 0
  }

  /** Bytes between the writer's cut and the reader's copy. */
  function OnTheWay(s: State): nat {
    (if Holding(s.w) then |s.w.seg.buf| else 0) + Bytes(s.data) + (if Carrying(s.p) then |s.p.f.buf| else 0)
    + Bytes(s.q.chain) + (if s.d.pc.DTaken? then |s.d.e.buf| else 0)
  }

  /** Bytes consumed but not yet taken off the sender's count. */
  function CreditsOnTheWay(s: State): nat {
    SumRead(s.credits) + (if Owing(s.p) then s.p.c.read else 0) + (if s.d.pc.DStatSend? then s.d.c.read else 0)
    + (if s.z.pc.SLoop? || s.z.pc.SSwap? then s.z.c.read else 0)
  }

  predicate Conserved(s: State) {
    s.sw.done + Uncounted(s.w) == OnTheWay(s) + Unreported(s.d) + s.rw.done + CreditsOnTheWay(s)
  }

  // ----- The window bound -----

  predicate WindowOk(max: nat, peak: nat) { 1 <= max <= peak }

  predicate CreditsOk(cs: seq<Credit>, peak: nat) { forall i | 0 <= i < |cs| :: WindowOk(cs[i].max, peak) }

  predicate Bounded(s: State) {
    && s.h.peak <= MAX_WINDOW
    && WindowOk(s.sw.max, s.h.peak) && WindowOk(s.rw.max, s.h.peak)
    && CreditsOk(s.credits, s.h.peak)
    && (s.z.pc.SLoop? || s.z.pc.SSwap? ==> WindowOk(s.z.c.max, s.h.peak))
    && (Owing(s.p) ==> WindowOk(s.p.c.max, s.h.peak))
    && (s.d.pc.DStatSend? ==> WindowOk(s.d.c.max, s.h.peak))
    && s.sw.done + Uncounted(s.w) <= s.h.peak
  }

  predicate Inv(s: State) {
    Shape(s) && SendWaitInv(s) && QueueWaitInv(s) && LenInv(s) && Conserved(s) && Bounded(s)
  }

  /** Under the bound no counter of a live word reaches 31 bits, so masking is the identity. */
  lemma NoMask(max: nat, done: nat, wait: bool)
    requires max <= MAX_WINDOW && done <= MAX_WINDOW
    ensures Pack(max, done, wait) == Word(max, done, wait)
  {
  }

  /** A credit being applied never exceeds what the sender has outstanding. */
  lemma CreditCovered(s: State)
    requires Conserved(s) && s.z.pc.SLoop?
    ensures s.z.c.read <= s.sw.done
  {
  }

  /** What the receiver has counted, plus the element it is reporting, is outstanding. */
  lemma ReportCovered(s: State)
    requires Conserved(s) && Bounded(s) && s.d.pc.DStatSwap?
    ensures s.rw.done + |s.d.cur.buf| <= s.h.peak <= MAX_WINDOW
  {
  }

  lemma InitInv()
    ensures Inv(INIT)
  {
  }

  lemma WriteInv(s: State, msg: seq<bv8>)
    requires Inv(s) && s.w.pc.WIdle? && 0 < |msg| < MAX_BUFFER
    ensures Inv(Write(s, msg))
  {
  }

  lemma ReadInv(s: State, n: nat)
    requires Inv(s) && s.d.pc.DIdle? && n > 0
    ensures Inv(Read(s, n))
  {
  }

  lemma WLoadInv(s: State)
    requires Inv(s) && s.w.pc.WStart?
    ensures Inv(WLoad(s))
  {
    if Remaining(s.sw.max, s.sw.done) != 0 { WCutInv(s, Remaining(s.sw.max, s.sw.done)); }
  }

  /** The segment fits the room that is left. */
  lemma WCutInv(s: State, remain: nat)
    requires Inv(s) && s.w.pc.WStart? && s.sw.done + remain == s.sw.max && remain > 0
    ensures Inv(s.(w := CutSegment(s.w, remain)))
  {
  }

  lemma WSetWaitInv(s: State)
    requires Inv(s) && s.w.pc.WMark?
    ensures Inv(WSetWait(s))
  {
    if s.sw == s.w.ptrs {
      NoMask(s.sw.max, s.sw.done, true);
      WMarkedInv(s);
      assert WSetWait(s) ==
        s.(sw := Word(s.sw.max, s.sw.done, true), w := s.w.(pc := WBlocked), h := s.h.(marks := s.h.marks + 1));
    } else {
      WRetryInv(s);
      assert WSetWait(s) == s.(w := s.w.(pc := WStart));
    }
  }

  lemma WMarkedInv(s: State)
    requires Inv(s) && s.w.pc.WMark? && s.sw.done >= s.sw.max
    ensures Inv(s.(sw := Word(s.sw.max, s.sw.done, true), w := s.w.(pc := WBlocked), h := s.h.(marks := s.h.marks + 1)))
  {
  }

  lemma WRetryInv(s: State)
    requires Inv(s) && s.w.pc.WMark?
    ensures Inv(s.(w := s.w.(pc := WStart)))
  {
  }

  lemma WSentLoadInv(s: State)
    requires Inv(s) && s.w.pc.WSized?
    ensures Inv(WSentLoad(s))
  {
  }

  lemma WSentSwapInv(s: State)
    requires Inv(s) && s.w.pc.WSent?
    ensures Inv(WSentSwap(s))
  {
    if s.sw == s.w.ptrs { NoMask(s.sw.max, s.sw.done + |s.w.seg.buf|, s.sw.wait); }
  }

  lemma WSendInfoInv(s: State)
    requires Inv(s) && s.w.pc.WSend?
    ensures Inv(WSendInfo(s))
  {
    BytesAppend(s.data, s.w.seg);
  }

  lemma SReceiveInv(s: State)
    requires Inv(s) && s.z.pc.SIdle? && s.credits != []
    ensures Inv(SReceive(s))
  {
  }

  /** The three outcomes of the load in `SetSize`. */
  lemma SLoadCases(s: State)
    requires s.z.c.read <= s.sw.done
    ensures var t, full := SLoad(s), Remaining(s.z.c.max, s.sw.done - s.z.c.read) == 0;
      || (t == s.(z := s.z.(pc := SIdle)) && s.z.c.read == 0)
      || t == s.(z := s.z.(pc := SSwap, newWait := s.z.newWait || (full && s.sw.wait), ptrs := s.sw))
  {
  }

  lemma SDroppedInv(s: State)
    requires Inv(s) && s.z.pc.SLoop? && s.z.c.read == 0
    ensures Inv(s.(z := s.z.(pc := SIdle)))
  {
  }

  lemma SLoadedInv(s: State, newWait: bool)
    requires Inv(s) && s.z.pc.SLoop? && s.z.c.read <= s.sw.done
    requires newWait <==> s.sw.wait && s.sw.done - s.z.c.read >= s.z.c.max
    ensures Inv(s.(z := s.z.(pc := SSwap, newWait := newWait, ptrs := s.sw)))
  {
  }

  lemma SLoadInv(s: State)
    requires Inv(s) && s.z.pc.SLoop?
    ensures Inv(SLoad(s))
  {
    CreditCovered(s);
    SLoadCases(s);
    if s.z.c.read == 0 { SDroppedInv(s); }
    SLoadedInv(s, s.z.newWait || (Remaining(s.z.c.max, s.sw.done - s.z.c.read) == 0 && s.sw.wait));
  }

  lemma SAppliedInv(s: State)
    requires Inv(s) && s.z.pc.SSwap? && s.sw == s.z.ptrs
    ensures Inv(s.(sw := Word(s.z.c.max, s.sw.done - s.z.c.read, s.z.newWait),
                   z := s.z.(pc := if s.sw.wait && !s.z.newWait then SAllow else SIdle)))
  {
  }

  lemma SRetryInv(s: State)
    requires Inv(s) && s.z.pc.SSwap? && s.sw != s.z.ptrs
    ensures Inv(s.(z := s.z.(pc := SLoop)))
  {
  }

  lemma STrySwapCases(s: State)
    requires s.sw == s.z.ptrs ==> s.z.c.read <= s.sw.done <= MAX_WINDOW && s.z.c.max <= MAX_WINDOW
    ensures STrySwap(s) ==
      if s.sw == s.z.ptrs then
        s.(sw := Word(s.z.c.max, s.sw.done - s.z.c.read, s.z.newWait),
           z := s.z.(pc := if s.sw.wait && !s.z.newWait then SAllow else SIdle))
      else s.(z := s.z.(pc := SLoop))
  {
    if s.sw == s.z.ptrs { NoMask(s.z.c.max, s.sw.done - s.z.c.read, s.z.newWait); }
  }

  lemma STrySwapInv(s: State)
    requires Inv(s) && s.z.pc.SSwap?
    ensures Inv(STrySwap(s))
  {
    STrySwapCases(s);
    if s.sw == s.z.ptrs { SAppliedInv(s); } else { SRetryInv(s); }
  }

  lemma AllowInv(s: State)
    requires Inv(s) && s.z.pc.SAllow? && s.w.pc.WBlocked?
    ensures Inv(Allow(s))
  {
  }

  lemma RReceiveInv(s: State)
    requires Inv(s) && s.p.pc.RIdle? && s.data != []
    ensures Inv(RReceive(s))
  {
  }

  lemma RKeepSizeInv(s: State)
    requires Inv(s) && s.p.pc.RCalc?
    ensures Inv(RKeepSize(s))
  {
  }

  lemma RSetSizeInv(s: State, max: nat)
    requires Inv(s) && s.p.pc.RCalc? && 1 <= max <= MAX_WINDOW
    ensures Inv(RSetSize(s, max))
  {
  }

  lemma RLoadWordInv(s: State)
    requires Inv(s) && s.p.pc.RLoad?
    ensures Inv(RLoadWord(s))
  {
  }

  lemma RReadLenInv(s: State)
    requires Inv(s) && s.p.pc.RLen?
    ensures Inv(RReadLen(s))
  {
  }

  /** The outcomes of the swap in `receiveWindow.Write`. */
  lemma RTrySwapCases(s: State)
    requires s.rw.max <= MAX_WINDOW && s.rw.done <= MAX_WINDOW
    ensures var t := RTrySwap(s);
      || t == s.(p := s.p.(pc := RCount, owes := false))
      || t == s.(p := s.p.(pc := RLoad))
      || t == s.(rw := Word(s.rw.max, s.rw.done, true), p := s.p.(pc := RCount, owes := false))
      || t == s.(rw := Word(s.rw.max, 0, false),
                 p := s.p.(pc := RCount, owes := true, c := Credit(s.rw.max, s.rw.done)))
  {
    NoMask(s.rw.max, s.rw.done, true);
    NoMask(s.rw.max, 0, false);
  }

  /** What the receiver has counted is outstanding. */
  lemma CountCovered(s: State)
    requires Conserved(s) && Bounded(s)
    ensures s.rw.done <= s.h.peak <= MAX_WINDOW
  {
  }

  lemma RTrySwapInv(s: State)
    requires Inv(s) && s.p.pc.RSwap?
    ensures Inv(RTrySwap(s))
  {
    CountCovered(s);
    RTrySwapCases(s);
    RTrySwapSilentInv(s, RCount);
    RTrySwapSilentInv(s, RLoad);
    RTrySwapMarkInv(s);
    RTrySwapCreditInv(s);
  }

  lemma RTrySwapSilentInv(s: State, pc: PusherPc)
    requires Inv(s) && s.p.pc.RSwap? && (pc.RCount? || pc.RLoad?)
    ensures pc.RCount? ==> Inv(s.(p := s.p.(pc := pc, owes := false)))
    ensures pc.RLoad? ==> Inv(s.(p := s.p.(pc := pc)))
  {
  }

  lemma RTrySwapMarkInv(s: State)
    requires Inv(s) && s.p.pc.RSwap?
    ensures Inv(s.(rw := Word(s.rw.max, s.rw.done, true), p := s.p.(pc := RCount, owes := false)))
  {
  }

  /** The receiver's count moves into a credit. */
  lemma RTrySwapCreditInv(s: State)
    requires Inv(s) && s.p.pc.RSwap?
    ensures Inv(s.(rw := Word(s.rw.max, 0, false),
                   p := s.p.(pc := RCount, owes := true, c := Credit(s.rw.max, s.rw.done))))
  {
  }

  lemma RAddLenInv(s: State)
    requires Inv(s) && s.p.pc.RCount?
    ensures Inv(RAddLen(s))
  {
  }

  lemma REnqueueInv(s: State)
    requires Inv(s) && s.p.pc.RPush?
    ensures Inv(REnqueue(s))
  {
    BytesAppend(s.q.chain, s.p.f);
  }

  lemma RAllowPopInv(s: State)
    requires Inv(s) && s.p.pc.RWake? && s.d.pc.DBlocked?
    ensures Inv(RAllowPop(s))
  {
  }

  lemma RSendInfoInv(s: State)
    requires Inv(s) && s.p.pc.RCredit?
    ensures Inv(RSendInfo(s))
  {
    SumReadAppend(s.credits, s.p.c);
  }

  lemma DLoadLenInv(s: State)
    requires Inv(s) && s.d.pc.DPop?
    ensures Inv(DLoadLen(s))
  {
  }

  lemma DMarkedInv(s: State)
    requires Inv(s) && s.d.pc.DMark? && s.q.len == 0 && s.q.wait == s.d.wasWaiting
    ensures Inv(s.(q := s.q.(wait := true), d := s.d.(pc := DBlocked)))
  {
  }

  lemma DRetryInv(s: State)
    requires Inv(s) && s.d.pc.DMark?
    ensures Inv(s.(d := s.d.(pc := DPop)))
  {
  }

  lemma DSetWaitInv(s: State)
    requires Inv(s) && s.d.pc.DMark?
    ensures Inv(DSetWait(s))
  {
    if s.q.len == 0 && s.q.wait == s.d.wasWaiting { DMarkedInv(s); } else { DRetryInv(s); }
  }

  lemma DDequeueInv(s: State)
    requires Inv(s) && s.d.pc.DTake? && s.q.chain != []
    ensures Inv(DDequeue(s))
  {
  }

  lemma DSubLenInv(s: State)
    requires Inv(s) && s.d.pc.DTaken?
    ensures Inv(DSubLen(s))
  {
  }

  /** Copying moves the reader on, and may finish the Read. */
  lemma DCopyOutInv(s: State)
    requires Inv(s) && s.d.pc.DCopy?
    ensures Inv(DCopyOut(s))
  {
    DCopyOutCases(s);
    var t := DCopyOut(s);
    DCopiedInv(s, t.d, t.h);
  }

  lemma DCopyOutCases(s: State)
    requires ReaderShape(s.d) && s.d.pc.DCopy?
    ensures var t := DCopyOut(s);
      && t == s.(d := t.d, h := t.h)
      && t.h.peak == s.h.peak && t.h.marks == s.h.marks && t.h.allows == s.h.allows
      && ReaderShape(t.d) && t.d.cur == s.d.cur && (t.d.pc.DStat? || (t.d.pc.DIdle? && t.d.off < |t.d.cur.buf|))
  {
  }

  lemma DCopiedInv(s: State, d: Reader, h: History)
    requires Inv(s) && s.d.pc.DCopy? && ReaderShape(d) && d.cur == s.d.cur
    requires d.pc.DStat? || (d.pc.DIdle? && d.off < |d.cur.buf|)
    requires h.peak == s.h.peak && h.marks == s.h.marks && h.allows == s.h.allows
    ensures Inv(s.(d := d, h := h))
  {
  }

  lemma DLoadWordInv(s: State)
    requires Inv(s) && s.d.pc.DStat?
    ensures Inv(DLoadWord(s))
  {
  }

  lemma DReadLenInv(s: State)
    requires Inv(s) && s.d.pc.DStatLen?
    ensures Inv(DReadLen(s))
  {
  }

  /** `AfterCopy` only moves the reader on, and records a finished Read. */
  lemma AfterReport(s: State)
    requires s.d.off == |s.d.cur.buf|
    ensures var t := AfterCopy(s);
      || (t == s.(d := s.d.(pc := DPop)) && |s.d.got| < s.d.size)
      || t == s.(d := s.d.(pc := DIdle), h := s.h.(finished := s.h.finished + [ReadRec(s.d.size, s.d.got)]))
  {
  }

  /** The three outcomes of the swap in `sendStatus`, when nothing overflows. */
  lemma DTrySwapCases(s: State)
    requires s.rw == s.d.ptrs ==> s.rw.max <= MAX_WINDOW && s.rw.done + |s.d.cur.buf| <= MAX_WINDOW
    requires s.d.off == |s.d.cur.buf|
    ensures var t, u := DTrySwap(s), s.(rw := Word(s.rw.max, s.rw.done + |s.d.cur.buf|, s.rw.wait));
      || t == s.(d := s.d.(pc := DStat))
      || t == s.(rw := Word(s.rw.max, 0, false),
                 d := s.d.(pc := DStatSend, c := Credit(s.rw.max, s.rw.done + |s.d.cur.buf|)))
      || (Remaining(s.rw.max, s.d.qlen) != s.rw.max && |s.d.got| < s.d.size && t == u.(d := s.d.(pc := DPop)))
      || (Remaining(s.rw.max, s.d.qlen) != s.rw.max
          && t == u.(d := s.d.(pc := DIdle), h := s.h.(finished := s.h.finished + [ReadRec(s.d.size, s.d.got)])))
  {
  }

  lemma DTrySwapInv(s: State)
    requires Inv(s) && s.d.pc.DStatSwap?
    ensures Inv(DTrySwap(s))
  {
    ReportCovered(s);
    DTrySwapCases(s);
    DTrySwapRetryInv(s);
    DTrySwapReportInv(s);
    if s.d.qlen > 0 { DTrySwapKeepInv(s, s.h.finished + [ReadRec(s.d.size, s.d.got)]); }
  }

  lemma DTrySwapRetryInv(s: State)
    requires Inv(s) && s.d.pc.DStatSwap?
    ensures Inv(s.(d := s.d.(pc := DStat)))
  {
  }

  /** The element and the receiver's count move into a credit. */
  lemma DTrySwapReportInv(s: State)
    requires Inv(s) && s.d.pc.DStatSwap?
    ensures Inv(s.(rw := Word(s.rw.max, 0, false),
                   d := s.d.(pc := DStatSend, c := Credit(s.rw.max, s.rw.done + |s.d.cur.buf|))))
  {
  }

  /** The element moves into the receiver's count; the queue is not empty then. */
  lemma DTrySwapKeepInv(s: State, finished: seq<ReadRec>)
    requires Inv(s) && s.d.pc.DStatSwap? && s.d.qlen > 0
    ensures var t := s.(rw := Word(s.rw.max, s.rw.done + |s.d.cur.buf|, s.rw.wait));
      && (|s.d.got| < s.d.size ==> Inv(t.(d := s.d.(pc := DPop))))
      && Inv(t.(d := s.d.(pc := DIdle), h := s.h.(finished := finished)))
  {
    DKeptIdleInv(s, finished);
    if |s.d.got| < s.d.size { DKeptPopInv(s); }
  }

  lemma DKeptIdleInv(s: State, finished: seq<ReadRec>)
    requires Inv(s) && s.d.pc.DStatSwap? && s.d.qlen > 0
    ensures Inv(s.(rw := Word(s.rw.max, s.rw.done + |s.d.cur.buf|, s.rw.wait),
                   d := s.d.(pc := DIdle), h := s.h.(finished := finished)))
  {
  }

  lemma DKeptPopInv(s: State)
    requires Inv(s) && s.d.pc.DStatSwap? && s.d.qlen > 0 && |s.d.got| < s.d.size
    ensures Inv(s.(rw := Word(s.rw.max, s.rw.done + |s.d.cur.buf|, s.rw.wait), d := s.d.(pc := DPop)))
  {
  }

  lemma DSendInfoInv(s: State)
    requires Inv(s) && s.d.pc.DStatSend?
    ensures Inv(DSendInfo(s))
  {
    SumReadAppend(s.credits, s.d.c);
    AfterReport(s.(credits := s.credits + [s.d.c]));
    DSentInv(s, s.h.finished + [ReadRec(s.d.size, s.d.got)]);
  }

  /** The reader's credit enters the stream. */
  lemma DSentInv(s: State, finished: seq<ReadRec>)
    requires Inv(s) && s.d.pc.DStatSend?
    ensures var t := s.(credits := s.credits + [s.d.c]);
      && (|s.d.got| < s.d.size ==> Inv(t.(d := s.d.(pc := DPop))))
      && Inv(t.(d := s.d.(pc := DIdle), h := s.h.(finished := finished)))
  {
    DSentIdleInv(s, finished);
    if |s.d.got| < s.d.size { DSentPopInv(s); }
  }

  lemma DSentIdleInv(s: State, finished: seq<ReadRec>)
    requires Inv(s) && s.d.pc.DStatSend?
    ensures Inv(s.(credits := s.credits + [s.d.c], d := s.d.(pc := DIdle), h := s.h.(finished := finished)))
  {
    SumReadAppend(s.credits, s.d.c);
  }

  lemma DSentPopInv(s: State)
    requires Inv(s) && s.d.pc.DStatSend? && |s.d.got| < s.d.size
    ensures Inv(s.(credits := s.credits + [s.d.c], d := s.d.(pc := DPop)))
  {
    SumReadAppend(s.credits, s.d.c);
  }

  predicate IsPushing(st: Step) {
    || st.StRReceive? || st.StRKeepSize? || st.StRSetSize? || st.StRLoadWord? || st.StRReadLen? || st.StRTrySwap?
    || st.StRAddLen? || st.StREnqueue? || st.StRAllowPop? || st.StRSendInfo?
  }

  predicate IsReading(st: Step) {
    || st.StDLoadLen? || st.StDSetWait? || st.StDDequeue? || st.StDSubLen? || st.StDCopyOut? || st.StDLoadWord?
    || st.StDReadLen? || st.StDTrySwap? || st.StDSendInfo?
  }

  lemma SendStepInv(s: State, st: Step)
    requires Inv(s) && Enabled(s, st) && !IsPushing(st) && !IsReading(st)
    ensures Inv(Do(s, st))
  {
    match st
    case AppWrite(msg) => WriteInv(s, msg);
    case AppRead(n) => ReadInv(s, n);
    case StWLoad => WLoadInv(s);
    case StWSetWait => WSetWaitInv(s);
    case StWSentLoad => WSentLoadInv(s);
    case StWSentSwap => WSentSwapInv(s);
    case StWSendInfo => WSendInfoInv(s);
    case StSReceive => SReceiveInv(s);
    case StSLoad => SLoadInv(s);
    case StSTrySwap => STrySwapInv(s);
    case StAllow => AllowInv(s);
  }

  lemma PushStepInv(s: State, st: Step)
    requires Inv(s) && Enabled(s, st) && IsPushing(st)
    ensures Inv(Do(s, st))
  {
    match st
    case StRReceive => RReceiveInv(s);
    case StRKeepSize => RKeepSizeInv(s);
    case StRSetSize(max) => RSetSizeInv(s, max);
    case StRLoadWord => RLoadWordInv(s);
    case StRReadLen => RReadLenInv(s);
    case StRTrySwap => RTrySwapInv(s);
    case StRAddLen => RAddLenInv(s);
    case StREnqueue => REnqueueInv(s);
    case StRAllowPop => RAllowPopInv(s);
    case StRSendInfo => RSendInfoInv(s);
  }

  lemma ReadStepInv(s: State, st: Step)
    requires Inv(s) && Enabled(s, st) && IsReading(st)
    ensures Inv(Do(s, st))
  {
    match st
    case StDLoadLen => DLoadLenInv(s);
    case StDSetWait => DSetWaitInv(s);
    case StDDequeue => DDequeueInv(s);
    case StDSubLen => DSubLenInv(s);
    case StDCopyOut => DCopyOutInv(s);
    case StDLoadWord => DLoadWordInv(s);
    case StDReadLen => DReadLenInv(s);
    case StDTrySwap => DTrySwapInv(s);
    case StDSendInfo => DSendInfoInv(s);
  }

  lemma StepInv(s: State, st: Step)
    requires Inv(s) && Enabled(s, st)
    ensures Inv(Do(s, st))
  {
    if IsPushing(st) { PushStepInv(s, st); } else if IsReading(st) { ReadStepInv(s, st); } else { SendStepInv(s, st); }
  }

  /** Every state of every run keeps the invariants. */
  lemma {:induction false} ExecInv(s: State, run: seq<Step>)
    requires Inv(s) && Exec(s, run).Some?
    ensures Inv(Exec(s, run).value)
    decreases |run|
  {
    if run != [] {
      StepInv(s, run[0]);
      ExecInv(Do(s, run[0]), run[1..]);
    }
  }
}
