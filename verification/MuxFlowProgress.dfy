/** The work inside a connection is bounded: between the calls of the application every step
    brings the connection nearer to rest, whatever the interleaving and however often swaps fail. */
module MuxFlowProgress {
  import opened Common
  import opened WindowWord
  import opened MuxFlow
  import opened MuxFlowInvariants
  import opened MuxFlowTheorems

  predicate IsCall(st: Step) { st.AppWrite? || st.AppRead? }

  // ----- A measure -----

  /** What is left to do for the bytes not cut yet, and where the writer is. */
  function WriterRank(w: Writer): nat {
    56 * (if w.off <= |w.buf| then |w.buf| - w.off else 0) +
    match w.pc
    case WIdle => 0
    case WBlocked => 0
    case WMark => 3
    case WStart => 4
    case WSend => 55
    case WSent => 58
    case WSized => 59
  }

  function SizerRank(z: Sizer): nat {
    match z.pc
    case SIdle => 0
    case SAllow => 5
    case SSwap => 8
    case SLoop => 9
  }

  function PusherRank(p: Pusher): nat {
    var owed := if p.owes then 11 else 0;
    match p.pc
    case RIdle => 0
    case RCredit => 11
    case RWake => 3 + owed
    case RPush => 25 + owed
    case RCount => 28 + owed
    case RSwap => 43
    case RLen => 44
    case RLoad => 45
    case RCalc => 49
  }

  function ReaderRank(d: Reader): nat {
    match d.pc
    case DIdle => 0
    case DBlocked => 0
    case DMark => 1
    case DTake => 1
    case DPop => 2
    case DStatSend => 13
    case DStatSwap => 17
    case DStatLen => 18
    case DStat => 19
    case DCopy => 20
    case DTaken => 21
  }

  /** Swaps that are bound to fail, as the word has changed since it was loaded. */
  function Stale(s: State): nat {
    (if (s.w.pc.WMark? || s.w.pc.WSent?) && s.sw != s.w.ptrs then 2 else 0)
    + (if s.z.pc.SSwap? && s.sw != s.z.ptrs then 2 else 0)
    + (if (s.p.pc.RLen? || s.p.pc.RSwap?) && s.rw != s.p.ptrs then 3 else 0)
    + (if (s.d.pc.DStatLen? || s.d.pc.DStatSwap?) && s.rw != s.d.ptrs then 3 else 0)
    + (if s.d.pc.DMark? && !(s.q.len == 0 && s.q.wait == s.d.wasWaiting) then 2 else 0)
  }

  function Rank(s: State): nat {
    WriterRank(s.w) + SizerRank(s.z) + PusherRank(s.p) + ReaderRank(s.d)
    + 50 * |s.data| + 10 * |s.credits| + 21 * |s.q.chain| + Stale(s)
  }

  // ----- Every step takes from it -----

  lemma WLoadTakes(s: State)
    requires s.w.pc.WStart? && WriterShape(s.w)
    ensures Rank(WLoad(s)) < Rank(s)
  {
  }

  lemma WSetWaitTakes(s: State)
    requires s.w.pc.WMark?
    ensures Rank(WSetWait(s)) < Rank(s)
  {
    if s.sw == s.w.ptrs { WMarkedTakes(s, WSetWait(s).sw, WSetWait(s).h); }
  }

  /** A new word in the send window costs the sizer at most one failed swap. */
  lemma WMarkedTakes(s: State, sw: Word, h: History)
    requires s.w.pc.WMark?
    ensures Rank(s.(sw := sw, w := s.w.(pc := WBlocked), h := h)) < Rank(s)
  {
  }

  lemma WSentLoadTakes(s: State)
    requires s.w.pc.WSized? && Mask(s.sw.done + |s.w.seg.buf|) >= s.sw.done
    ensures Rank(WSentLoad(s)) < Rank(s)
  {
  }

  lemma WSentSwapTakes(s: State)
    requires s.w.pc.WSent?
    ensures Rank(WSentSwap(s)) < Rank(s)
  {
    if s.sw == s.w.ptrs { WCountedTakes(s, WSentSwap(s).sw); }
  }

  lemma WCountedTakes(s: State, sw: Word)
    requires s.w.pc.WSent?
    ensures Rank(s.(sw := sw, w := s.w.(pc := WSend))) < Rank(s)
  {
  }

  lemma WSendInfoTakes(s: State)
    requires s.w.pc.WSend? && WriterShape(s.w)
    ensures Rank(WSendInfo(s)) < Rank(s)
  {
  }

  lemma SReceiveTakes(s: State)
    requires s.z.pc.SIdle? && s.credits != []
    ensures Rank(SReceive(s)) < Rank(s)
  {
  }

  lemma SLoadTakes(s: State)
    requires s.z.pc.SLoop?
    ensures Rank(SLoad(s)) < Rank(s)
  {
  }

  lemma STrySwapTakes(s: State)
    requires s.z.pc.SSwap?
    ensures Rank(STrySwap(s)) < Rank(s)
  {
    var t := STrySwap(s);
    if s.sw == s.z.ptrs { SAppliedTakes(s, t.sw, t.z); }
  }

  lemma SAppliedTakes(s: State, sw: Word, z: Sizer)
    requires s.z.pc.SSwap? && (z.pc.SAllow? || z.pc.SIdle?)
    ensures Rank(s.(sw := sw, z := z)) < Rank(s)
  {
  }

  lemma AllowTakes(s: State)
    requires s.z.pc.SAllow? && s.w.pc.WBlocked?
    ensures Rank(Allow(s)) < Rank(s)
  {
  }

  /** The segment a writer is about to account for never overflows the counter. */
  lemma NoOverflow(s: State)
    requires Inv(s) && s.w.pc.WSized?
    ensures Mask(s.sw.done + |s.w.seg.buf|) >= s.sw.done
  {
  }

  lemma SenderTakes(s: State, st: Step)
    requires Inv(s) && Enabled(s, st) && !IsCall(st) && !IsPushing(st) && !IsReading(st)
    ensures Rank(Do(s, st)) < Rank(s)
  {
    match st
    case StWLoad => WLoadTakes(s);
    case StWSetWait => WSetWaitTakes(s);
    case StWSentLoad =>
      NoOverflow(s);
      WSentLoadTakes(s);
    case StWSentSwap => WSentSwapTakes(s);
    case StWSendInfo => WSendInfoTakes(s);
    case StSReceive => SReceiveTakes(s);
    case StSLoad => SLoadTakes(s);
    case StSTrySwap => STrySwapTakes(s);
    case StAllow => AllowTakes(s);
  }

  lemma RReceiveTakes(s: State)
    requires s.p.pc.RIdle? && s.data != []
    ensures Rank(RReceive(s)) < Rank(s)
  {
  }

  lemma RKeepSizeTakes(s: State)
    requires s.p.pc.RCalc?
    ensures Rank(RKeepSize(s)) < Rank(s)
  {
  }

  lemma RSetSizeTakes(s: State, max: nat)
    requires s.p.pc.RCalc?
    ensures Rank(RSetSize(s, max)) < Rank(s)
  {
  }

  lemma RLoadWordTakes(s: State)
    requires s.p.pc.RLoad?
    ensures Rank(RLoadWord(s)) < Rank(s)
  {
  }

  lemma RReadLenTakes(s: State)
    requires s.p.pc.RLen?
    ensures Rank(RReadLen(s)) < Rank(s)
  {
  }

  lemma RTrySwapTakes(s: State)
    requires s.p.pc.RSwap?
    ensures Rank(RTrySwap(s)) < Rank(s)
  {
    var t := RTrySwap(s);
    if t.p.pc.RCount? { RSwappedTakes(s, t.rw, t.p); }
  }

  /** A new word in the receive window costs the reader at most one failed swap. */
  lemma RSwappedTakes(s: State, rw: Word, p: Pusher)
    requires s.p.pc.RSwap? && p.pc.RCount?
    ensures Rank(s.(rw := rw, p := p)) < Rank(s)
  {
  }

  lemma RAddLenTakes(s: State)
    requires s.p.pc.RCount?
    ensures Rank(RAddLen(s)) < Rank(s)
  {
  }

  lemma REnqueueTakes(s: State)
    requires s.p.pc.RPush?
    ensures Rank(REnqueue(s)) < Rank(s)
  {
  }

  lemma RAllowPopTakes(s: State)
    requires s.p.pc.RWake? && s.d.pc.DBlocked?
    ensures Rank(RAllowPop(s)) < Rank(s)
  {
  }

  lemma RSendInfoTakes(s: State)
    requires s.p.pc.RCredit?
    ensures Rank(RSendInfo(s)) < Rank(s)
  {
  }

  lemma PusherTakes(s: State, st: Step)
    requires Enabled(s, st) && IsPushing(st)
    ensures Rank(Do(s, st)) < Rank(s)
  {
    match st
    case StRReceive => RReceiveTakes(s);
    case StRKeepSize => RKeepSizeTakes(s);
    case StRSetSize(max) => RSetSizeTakes(s, max);
    case StRLoadWord => RLoadWordTakes(s);
    case StRReadLen => RReadLenTakes(s);
    case StRTrySwap => RTrySwapTakes(s);
    case StRAddLen => RAddLenTakes(s);
    case StREnqueue => REnqueueTakes(s);
    case StRAllowPop => RAllowPopTakes(s);
    case StRSendInfo => RSendInfoTakes(s);
  }

  lemma DLoadLenTakes(s: State)
    requires s.d.pc.DPop?
    ensures Rank(DLoadLen(s)) < Rank(s)
  {
  }

  lemma DSetWaitTakes(s: State)
    requires s.d.pc.DMark?
    ensures Rank(DSetWait(s)) < Rank(s)
  {
  }

  lemma DDequeueTakes(s: State)
    requires s.d.pc.DTake? && s.q.chain != []
    ensures Rank(DDequeue(s)) < Rank(s)
  {
  }

  lemma DSubLenTakes(s: State)
    requires s.d.pc.DTaken?
    ensures Rank(DSubLen(s)) < Rank(s)
  {
  }

  lemma DCopyOutTakes(s: State)
    requires s.d.pc.DCopy? && ReaderShape(s.d)
    ensures Rank(DCopyOut(s)) < Rank(s)
  {
  }

  lemma DLoadWordTakes(s: State)
    requires s.d.pc.DStat?
    ensures Rank(DLoadWord(s)) < Rank(s)
  {
  }

  lemma DReadLenTakes(s: State)
    requires s.d.pc.DStatLen?
    ensures Rank(DReadLen(s)) < Rank(s)
  {
  }

  lemma DTrySwapTakes(s: State)
    requires s.d.pc.DStatSwap? && s.d.off == |s.d.cur.buf|
    ensures Rank(DTrySwap(s)) < Rank(s)
  {
    var t := DTrySwap(s);
    if s.rw == s.d.ptrs { DSwappedTakes(s, t.rw, t.d, t.h); }
  }

  /** And the other way round. */
  lemma DSwappedTakes(s: State, rw: Word, d: Reader, h: History)
    requires s.d.pc.DStatSwap? && (d.pc.DStatSend? || d.pc.DPop? || d.pc.DIdle?)
    ensures Rank(s.(rw := rw, d := d, h := h)) < Rank(s)
  {
  }

  lemma DSendInfoTakes(s: State)
    requires s.d.pc.DStatSend? && s.d.off == |s.d.cur.buf|
    ensures Rank(DSendInfo(s)) < Rank(s)
  {
  }

  lemma ReaderTakes(s: State, st: Step)
    requires ReaderShape(s.d) && Enabled(s, st) && IsReading(st)
    ensures Rank(Do(s, st)) < Rank(s)
  {
    match st
    case StDLoadLen => DLoadLenTakes(s);
    case StDSetWait => DSetWaitTakes(s);
    case StDDequeue => DDequeueTakes(s);
    case StDSubLen => DSubLenTakes(s);
    case StDCopyOut => DCopyOutTakes(s);
    case StDLoadWord => DLoadWordTakes(s);
    case StDReadLen => DReadLenTakes(s);
    case StDTrySwap => DTrySwapTakes(s);
    case StDSendInfo => DSendInfoTakes(s);
  }

  lemma StepTakes(s: State, st: Step)
    requires Inv(s) && Enabled(s, st) && !IsCall(st)
    ensures Rank(Do(s, st)) < Rank(s)
  {
    if IsPushing(st) {
      PusherTakes(s, st);
    } else if IsReading(st) {
      ReaderTakes(s, st);
    } else {
      SenderTakes(s, st);
    }
  }

  /** A call adds no more than this. */
  function CallWork(st: Step): nat {
    match st
    case AppWrite(msg) => 60 * |msg|
    case AppRead(_) => 20
    case _ => 0
  }

  lemma CallAdds(s: State, st: Step)
    requires Enabled(s, st) && IsCall(st) && WriterShape(s.w)
    ensures Rank(Do(s, st)) <= Rank(s) + CallWork(st)
  {
  }

  // ----- Over every run -----

  function InternalSteps(run: seq<Step>): nat {
    if run == [] then 0 else InternalSteps(run[1..]) + (if IsCall(run[0]) then 0 else 1)
  }

  function Work(run: seq<Step>): nat { if run == [] then 0 else Work(run[1..]) + CallWork(run[0]) }

  lemma {:induction false} WorkFrom(s: State, run: seq<Step>)
    requires Inv(s) && Exec(s, run).Some?
    ensures InternalSteps(run) + Rank(Exec(s, run).value) <= Rank(s) + Work(run)
    decreases |run|
  {
    if run != [] {
      StepInv(s, run[0]);
      if IsCall(run[0]) { CallAdds(s, run[0]); } else { StepTakes(s, run[0]); }
      WorkFrom(Do(s, run[0]), run[1..]);
    }
  }

  /** In every run the steps taken inside the connection, failed swaps and repetitions included,
      are at most 60 for each byte written and 20 for each Read. */
  lemma WorkIsBounded(run: seq<Step>, s: State)
    requires Exec(INIT, run) == Some(s)
    ensures InternalSteps(run) + Rank(s) <= Work(run)
  {
    InitInv();
    WorkFrom(INIT, run);
  }

  predicate NoCalls(run: seq<Step>) { forall i | 0 <= i < |run| :: !IsCall(run[i]) }

  lemma {:induction false} NoCallsNoWork(run: seq<Step>)
    requires NoCalls(run)
    ensures InternalSteps(run) == |run| && Work(run) == 0
  {
    if run != [] { NoCallsNoWork(run[1..]); }
  }

  /** From any reachable state the connection comes to rest by itself: no more steps can be taken
      than the state's rank, and where none is left a blocked writer faces a reader that is not
      reading and has bytes to read. */
  lemma ComesToRest(run: seq<Step>, s: State, more: seq<Step>, t: State)
    requires Exec(INIT, run) == Some(s) && NoCalls(more) && Exec(s, more) == Some(t)
    ensures |more| <= Rank(s) <= Work(run)
    ensures Quiescent(t) && t.w.pc.WBlocked? ==> t.d.pc.DIdle? && Buffered(t) > 0
  {
    InitInv();
    ExecInv(INIT, run);
    WorkIsBounded(run, s);
    WorkFrom(s, more);
    NoCallsNoWork(more);
    RestIsRight(s, more, t);
  }

  lemma RestIsRight(s: State, more: seq<Step>, t: State)
    requires Inv(s) && Exec(s, more) == Some(t)
    ensures Quiescent(t) && t.w.pc.WBlocked? ==> t.d.pc.DIdle? && Buffered(t) > 0
  {
    ExecInv(s, more);
    if Quiescent(t) { StuckOnlyForTheApplication(t); }
  }

  lemma FirstStep(s: State, st: Step, rest: seq<Step>)
    requires Enabled(s, st) && !IsCall(st) && NoCalls(rest)
    ensures NoCalls([st] + rest) && Exec(s, [st] + rest) == Exec(Do(s, st), rest)
  {
    assert ([st] + rest)[1..] == rest;
  }

  /** And rest is always reached: any choice among the enabled steps leads there. */
  lemma {:induction false} ReachesRest(s: State) returns (more: seq<Step>, t: State)
    requires Inv(s)
    ensures NoCalls(more) && Exec(s, more) == Some(t) && Quiescent(t)
    decreases Rank(s)
  {
    if Quiescent(s) {
      more, t := [], s;
    } else {
      var st: Step :| !st.AppWrite? && !st.AppRead? && Enabled(s, st);
      StepTakes(s, st);
      StepInv(s, st);
      var rest;
      rest, t := ReachesRest(Do(s, st));
      more := [st] + rest;
      FirstStep(s, st, rest);
    }
  }
}
