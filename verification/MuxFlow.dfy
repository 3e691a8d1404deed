/** The credit-based flow control of one direction of a multiplexed connection
    (nps-master/lib/nps_mux/conn.go), as a step system.

    Five activities share the state: the writer (`WriteFull`/`WriteTo`/`sent`), the
    sending side's mux reader (`SetSize`/`allow`), the receiving side's mux reader
    (`receiveWindow.Write`, `Push`), the reading goroutine (`readFromQueue`, `Pop`,
    `sendStatus`) and the application, which starts writes and reads.  One step is one
    atomic access to shared state: a load, a compare-and-swap, a channel operation.  Each
    thread is a record of its position and its local variables. */
module MuxFlow {
  import opened Common
  import opened WindowWord

  const SEGMENT: nat := 4085               // maximumSegmentSize
  const INITIAL_WINDOW: nat := 122550      // maximumSegmentSize * 30
  const MAX_WINDOW: nat := 0x800_0000      // maximumWindowSize, 1 << 27
  const MAX_BUFFER: nat := 0x1_0000_0000   // the writer's offset is 32 bits wide

  /** A data message in flight, and the element it becomes in the receive queue. */
  datatype Frame = Frame(buf: seq<bv8>, part: bool)

  /** A `muxMsgSendOk` message: the receiver's window and the bytes it has consumed. */
  datatype Credit = Credit(max: nat, read: nat)

  /** A byte of the stream; `last` marks the final byte of a Write. */
  datatype Tok = Tok(b: bv8, last: bool)

  /** A finished Read: the size of its buffer and what it returned. */
  datatype ReadRec = ReadRec(size: nat, toks: seq<Tok>)

  datatype WriterPc =
    | WIdle       // WriteFull not called, or its buffer drained
    | WStart      // about to load the window
    | WMark       // saw no room, about to set the wait flag
    | WBlocked    // in waitReceiveWindow
    | WSized      // segment cut, about to load in `sent`
    | WSent       // about to swap in `sent`
    | WSend       // about to call sendInfo
  datatype Writer = Writer(pc: WriterPc, buf: seq<bv8>, off: nat, seg: Frame, ptrs: Word)

  datatype SizerPc =
    | SIdle
    | SLoop       // about to load the window
    | SSwap       // about to swap
    | SAllow      // about to signal the writer
  datatype Sizer = Sizer(pc: SizerPc, c: Credit, newWait: bool, ptrs: Word)

  datatype PusherPc =
    | RIdle
    | RCalc       // in calcSize
    | RLoad       // about to load the window
    | RLen        // about to read the queue length
    | RSwap
    | RCount      // in Push, about to add to the queue length
    | RPush       // about to put the element into the chain
    | RWake       // about to signal the reader
    | RCredit     // about to call sendInfo
  /** `owes` says whether a credit `c` is to be sent after the push. */
  datatype Pusher = Pusher(pc: PusherPc, f: Frame, ptrs: Word, qlen: nat, owes: bool, c: Credit, wake: bool)

  datatype ReaderPc =
    | DIdle
    | DPop        // about to load the queue length
    | DMark       // saw an empty queue, about to set its wait flag
    | DBlocked    // in waitPush
    | DTake       // spinning in TryPop
    | DTaken      // element out of the chain, length not yet reduced
    | DCopy
    | DStat       // in sendStatus, about to load the window
    | DStatLen    // about to read the queue length
    | DStatSwap
    | DStatSend   // about to call sendInfo
  /** `cur`/`off` are the window's element and offset, `e` the element just popped. */
  datatype Reader = Reader(pc: ReaderPc, cur: Frame, off: nat, size: nat, got: seq<Tok>,
                           wasWaiting: bool, e: Frame, ptrs: Word, qlen: nat, c: Credit)

  /** The receive queue: its length word and the chain of elements. */
  datatype Queue = Queue(len: nat, wait: bool, chain: seq<Frame>)

  /** What has happened so far: writes, copied bytes, finished reads, the largest window
      ever in force, and how often the send window's wait flag was set and signalled. */
  datatype History = History(written: seq<seq<bv8>>, consumed: seq<Tok>, finished: seq<ReadRec>,
                             peak: nat, marks: nat, allows: nat)

  datatype State = State(
    sw: Word, w: Writer, z: Sizer,          // sending side
    data: seq<Frame>, credits: seq<Credit>, // the two message streams
    rw: Word, q: Queue, p: Pusher, d: Reader, // receiving side
    h: History)

  const NO_FRAME: Frame := Frame([], false)
  const NO_CREDIT: Credit := Credit(0, 0)
  const NO_WORD: Word := Word(0, 0, false)

  const INIT: State := State(
    Word(INITIAL_WINDOW, 0, false), Writer(WIdle, [], 0, NO_FRAME, NO_WORD), Sizer(SIdle, NO_CREDIT, false, NO_WORD),
    [], [],
    Word(INITIAL_WINDOW, 0, false), Queue(0, false, []),
    Pusher(RIdle, NO_FRAME, NO_WORD, 0, false, NO_CREDIT, false),
    Reader(DIdle, NO_FRAME, 0, 0, [], false, NO_FRAME, NO_WORD, 0, NO_CREDIT),
    History([], [], [], INITIAL_WINDOW, 0, 0))

  /** `remainingSize` of either window. */
  function Remaining(max: nat, used: nat): nat {
    if max > used then max - used else 0
  }

  function Min(a: nat, b: nat): nat { if a < b then a else b }
  function Max(a: nat, b: nat): nat { if a < b then b else a }

  function MsgToks(msg: seq<bv8>): (t: seq<Tok>)
    ensures |t| == |msg|
  {
    seq(|msg|, i requires 0 <= i < |msg| => Tok(msg[i], i == |msg| - 1))
  }

  function FrameToks(f: Frame): (t: seq<Tok>)
    ensures |t| == |f.buf|
  {
    seq(|f.buf|, i requires 0 <= i < |f.buf| => Tok(f.buf[i], !f.part && i == |f.buf| - 1))
  }

  // ----- The application -----

  function Write(s: State, msg: seq<bv8>): State {
    s.(w := s.w.(pc := WStart, buf := msg, off := 0), h := s.h.(written := s.h.written + [msg]))
  }

  function Read(s: State, n: nat): State {
    s.(d := s.d.(pc := if s.d.off == |s.d.cur.buf| then DPop else DCopy, size := n, got := []))
  }

  // ----- The writer: WriteFull, WriteTo, sent -----

  /** Cut one segment from the buffer, no larger than the room seen. */
  function CutSegment(w: Writer, remain: nat): Writer
    requires w.off <= |w.buf|
  {
    var rest := |w.buf| - w.off;
    var n := Min(Min(rest, SEGMENT), remain);
    w.(pc := WSized, seg := Frame(w.buf[w.off..w.off + n], n < rest), off := w.off + n)
  }

  function WLoad(s: State): State {
    var remain := Remaining(s.sw.max, s.sw.done);
    if remain == 0 then s.(w := s.w.(pc := WMark, ptrs := s.sw))
    else if s.w.off > |s.w.buf| then s.(w := s.w.(pc := WIdle))
    else s.(w := CutSegment(s.w, remain))
  }

  function WSetWait(s: State): State {
    if s.sw == s.w.ptrs
    then s.(sw := Pack(s.sw.max, s.sw.done, true), w := s.w.(pc := WBlocked), h := s.h.(marks := s.h.marks + 1))
    else s.(w := s.w.(pc := WStart))
  }

  function WSentLoad(s: State): State {
    if Mask(s.sw.done + |s.w.seg.buf|) < s.sw.done
    then s // overflow: yield and load again
    else s.(w := s.w.(pc := WSent, ptrs := s.sw))
  }

  function WSentSwap(s: State): State {
    if s.sw == s.w.ptrs
    then s.(sw := Pack(s.sw.max, s.sw.done + |s.w.seg.buf|, s.sw.wait), w := s.w.(pc := WSend))
    else s.(w := s.w.(pc := WSized))
  }

  /** Hand the segment over; back in `WriteFull`, cut another or stop when drained. */
  function WSendInfo(s: State): State {
    s.(data := s.data + [s.w.seg], w := s.w.(pc := if s.w.off >= |s.w.buf| then WIdle else WStart))
  }

  // ----- SetSize and allow -----

  function SReceive(s: State): State
    requires s.credits != []
  {
    s.(credits := s.credits[1..], z := s.z.(pc := SLoop, c := s.credits[0], newWait := false))
  }

  function SLoad(s: State): State {
    var c := s.z.c;
    if c.read > s.sw.done then s.(z := s.z.(pc := SIdle))
    else if c.read == 0 && c.max == s.sw.max then s.(z := s.z.(pc := SIdle))
    else
      var full := Remaining(c.max, s.sw.done - c.read) == 0;
      s.(z := s.z.(pc := SSwap, newWait := s.z.newWait || (full && s.sw.wait), ptrs := s.sw))
  }

  function STrySwap(s: State): State {
    var c, ptrs := s.z.c, s.z.ptrs;
    if s.sw == ptrs then
      s.(sw := Pack(c.max, if ptrs.done >= c.read then ptrs.done - c.read else 0, s.z.newWait),
         z := s.z.(pc := if ptrs.wait && !s.z.newWait then SAllow else SIdle))
    else s.(z := s.z.(pc := SLoop))
  }

  /** The signal on `setSizeCh`: the writer and the signalling thread meet. */
  function Allow(s: State): State {
    s.(z := s.z.(pc := SIdle), w := s.w.(pc := WStart), h := s.h.(allows := s.h.allows + 1))
  }

  // ----- receiveWindow.Write and Push -----

  function RReceive(s: State): State
    requires s.data != []
  {
    s.(data := s.data[1..], p := s.p.(pc := RCalc, f := s.data[0]))
  }

  function RKeepSize(s: State): State {
    s.(p := s.p.(pc := RLoad))
  }

  /** `calcSize` swaps in a new maximum and keeps the rest of the word. */
  function RSetSize(s: State, max: nat): State {
    s.(rw := Pack(max, s.rw.done, s.rw.wait), p := s.p.(pc := RLoad), h := s.h.(peak := Max(s.h.peak, max)))
  }

  function RLoadWord(s: State): State {
    s.(p := s.p.(pc := RLen, ptrs := s.rw))
  }

  function RReadLen(s: State): State {
    s.(p := s.p.(pc := RSwap, qlen := s.q.len))
  }

  function RTrySwap(s: State): State {
    var ptrs := s.p.ptrs;
    var remain := Remaining(ptrs.max, s.p.qlen + |s.p.f.buf|);
    if ptrs.wait then s.(p := s.p.(pc := RCount, owes := false))
    else if s.rw != ptrs then s.(p := s.p.(pc := RLoad))
    else if remain == 0 then s.(rw := Pack(ptrs.max, ptrs.done, true), p := s.p.(pc := RCount, owes := false))
    else s.(rw := Pack(ptrs.max, 0, false), p := s.p.(pc := RCount, owes := true, c := Credit(ptrs.max, ptrs.done)))
  }

  function RAddLen(s: State): State {
    s.(q := s.q.(len := s.q.len + |s.p.f.buf|, wait := false), p := s.p.(pc := RPush, wake := s.q.wait))
  }

  function AfterPush(p: Pusher): Pusher {
    p.(pc := if p.owes then RCredit else RIdle)
  }

  function REnqueue(s: State): State {
    s.(q := s.q.(chain := s.q.chain + [s.p.f]), p := if s.p.wake then s.p.(pc := RWake) else AfterPush(s.p))
  }

  /** The signal on `readOp`: the pushing thread and the reader meet. */
  function RAllowPop(s: State): State {
    s.(p := AfterPush(s.p), d := s.d.(pc := DPop))
  }

  function RSendInfo(s: State): State {
    s.(credits := s.credits + [s.p.c], p := s.p.(pc := RIdle))
  }

  // ----- readFromQueue, Pop, sendStatus -----

  function DLoadLen(s: State): State {
    s.(d := if s.q.len == 0 then s.d.(pc := DMark, wasWaiting := s.q.wait) else s.d.(pc := DTake))
  }

  function DSetWait(s: State): State {
    if s.q.len == 0 && s.q.wait == s.d.wasWaiting
    then s.(q := s.q.(wait := true), d := s.d.(pc := DBlocked))
    else s.(d := s.d.(pc := DPop))
  }

  function DDequeue(s: State): State
    requires s.q.chain != []
  {
    s.(q := s.q.(chain := s.q.chain[1..]), d := s.d.(pc := DTaken, e := s.q.chain[0]))
  }

  function DSubLen(s: State): State {
    s.(q := s.q.(len := Remaining(s.q.len, |s.d.e.buf|)), d := s.d.(pc := DCopy, cur := s.d.e, off := 0))
  }

  /** The end of one turn of `readFromQueue`'s loop: go round again, or return. */
  function AfterCopy(s: State): State {
    if |s.d.got| < s.d.size && s.d.cur.part
    then s.(d := s.d.(pc := if s.d.off == |s.d.cur.buf| then DPop else DCopy))
    else s.(d := s.d.(pc := DIdle), h := s.h.(finished := s.h.finished + [ReadRec(s.d.size, s.d.got)]))
  }

  function DCopyOut(s: State): State
    requires s.d.off <= |s.d.cur.buf| && |s.d.got| <= s.d.size
  {
    var n := Min(|s.d.cur.buf| - s.d.off, s.d.size - |s.d.got|);
    var toks := FrameToks(s.d.cur)[s.d.off..s.d.off + n];
    var t := s.(d := s.d.(got := s.d.got + toks, off := s.d.off + n), h := s.h.(consumed := s.h.consumed + toks));
    if t.d.off == |t.d.cur.buf| then t.(d := t.d.(pc := DStat)) else AfterCopy(t)
  }

  function DLoadWord(s: State): State {
    s.(d := s.d.(pc := DStatLen, ptrs := s.rw))
  }

  function DReadLen(s: State): State {
    s.(d := s.d.(pc := DStatSwap, qlen := s.q.len))
  }

  function DTrySwap(s: State): State {
    var ptrs, l := s.d.ptrs, |s.d.cur.buf|;
    if s.rw != ptrs then s.(d := s.d.(pc := DStat))
    else if ptrs.done <= Mask(ptrs.done + l) then
      var read, remain := ptrs.done + l, Remaining(ptrs.max, s.d.qlen);
      if (ptrs.wait && remain > 0) || read >= ptrs.max / 2 || remain == ptrs.max
      then s.(rw := Pack(ptrs.max, 0, false), d := s.d.(pc := DStatSend, c := Credit(ptrs.max, Mask(read))))
      else AfterCopy(s.(rw := Pack(ptrs.max, read, ptrs.wait)))
    else // overflow
      s.(rw := Pack(ptrs.max, l, ptrs.wait), d := s.d.(pc := DStatSend, c := Credit(ptrs.max, ptrs.done)))
  }

  function DSendInfo(s: State): State {
    AfterCopy(s.(credits := s.credits + [s.d.c]))
  }

  // ----- Runs -----

  datatype Step =
    | AppWrite(msg: seq<bv8>) | AppRead(n: nat)
    | StWLoad | StWSetWait | StWSentLoad | StWSentSwap | StWSendInfo
    | StSReceive | StSLoad | StSTrySwap | StAllow
    | StRReceive | StRKeepSize | StRSetSize(max: nat) | StRLoadWord | StRReadLen | StRTrySwap
    | StRAddLen | StREnqueue | StRAllowPop | StRSendInfo
    | StDLoadLen | StDSetWait | StDDequeue | StDSubLen | StDCopyOut | StDLoadWord | StDReadLen
    | StDTrySwap | StDSendInfo

  /** Whether the thread a step belongs to is at that step and not blocked in it. */
  predicate Enabled(s: State, st: Step) {
    match st
    case AppWrite(msg) => s.w.pc.WIdle? && 0 < |msg| < MAX_BUFFER
    case AppRead(n) => s.d.pc.DIdle? && n > 0
    case StWLoad => s.w.pc.WStart?
    case StWSetWait => s.w.pc.WMark?
    case StWSentLoad => s.w.pc.WSized?
    case StWSentSwap => s.w.pc.WSent?
    case StWSendInfo => s.w.pc.WSend?
    case StSReceive => s.z.pc.SIdle? && s.credits != []
    case StSLoad => s.z.pc.SLoop?
    case StSTrySwap => s.z.pc.SSwap?
    case StAllow => s.z.pc.SAllow? && s.w.pc.WBlocked?
    case StRReceive => s.p.pc.RIdle? && s.data != []
    case StRKeepSize => s.p.pc.RCalc?
    case StRSetSize(max) => s.p.pc.RCalc? && 1 <= max <= MAX_WINDOW
    case StRLoadWord => s.p.pc.RLoad?
    case StRReadLen => s.p.pc.RLen?
    case StRTrySwap => s.p.pc.RSwap?
    case StRAddLen => s.p.pc.RCount?
    case StREnqueue => s.p.pc.RPush?
    case StRAllowPop => s.p.pc.RWake? && s.d.pc.DBlocked?
    case StRSendInfo => s.p.pc.RCredit?
    case StDLoadLen => s.d.pc.DPop?
    case StDSetWait => s.d.pc.DMark?
    case StDDequeue => s.d.pc.DTake? && s.q.chain != []
    case StDSubLen => s.d.pc.DTaken?
    case StDCopyOut => s.d.pc.DCopy? && s.d.off <= |s.d.cur.buf| && |s.d.got| <= s.d.size
    case StDLoadWord => s.d.pc.DStat?
    case StDReadLen => s.d.pc.DStatLen?
    case StDTrySwap => s.d.pc.DStatSwap?
    case StDSendInfo => s.d.pc.DStatSend?
  }

  function Do(s: State, st: Step): State
    requires Enabled(s, st)
  {
    match st
    case AppWrite(msg) => Write(s, msg)
    case AppRead(n) => Read(s, n)
    case StWLoad => WLoad(s)
    case StWSetWait => WSetWait(s)
    case StWSentLoad => WSentLoad(s)
    case StWSentSwap => WSentSwap(s)
    case StWSendInfo => WSendInfo(s)
    case StSReceive => SReceive(s)
    case StSLoad => SLoad(s)
    case StSTrySwap => STrySwap(s)
    case StAllow => Allow(s)
    case StRReceive => RReceive(s)
    case StRKeepSize => RKeepSize(s)
    case StRSetSize(max) => RSetSize(s, max)
    case StRLoadWord => RLoadWord(s)
    case StRReadLen => RReadLen(s)
    case StRTrySwap => RTrySwap(s)
    case StRAddLen => RAddLen(s)
    case StREnqueue => REnqueue(s)
    case StRAllowPop => RAllowPop(s)
    case StRSendInfo => RSendInfo(s)
    case StDLoadLen => DLoadLen(s)
    case StDSetWait => DSetWait(s)
    case StDDequeue => DDequeue(s)
    case StDSubLen => DSubLen(s)
    case StDCopyOut => DCopyOut(s)
    case StDLoadWord => DLoadWord(s)
    case StDReadLen => DReadLen(s)
    case StDTrySwap => DTrySwap(s)
    case StDSendInfo => DSendInfo(s)
  }

  /** The state after a run of steps from `s`, if every step was enabled when taken. */
  function Exec(s: State, run: seq<Step>): Option<State>
    decreases |run|
  {
    if run == [] then Some(s)
    else if Enabled(s, run[0]) then Exec(Do(s, run[0]), run[1..])
    else None
  }
}
