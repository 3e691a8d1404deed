/** The promises of the flow control, over every run from the initial state. */
module MuxFlowTheorems {
  import opened Common
  import opened WindowWord
  import opened MuxFlow
  import opened MuxFlowInvariants
  import opened MuxFlowStream

  /** The sender's outstanding count is, byte for byte, what is on its way to the reader plus
      what is on its way back as credit. */
  lemma CreditConservation(run: seq<Step>, s: State)
    requires Exec(INIT, run) == Some(s)
    ensures s.sw.done + Uncounted(s.w) == OnTheWay(s) + Unreported(s.d) + s.rw.done + CreditsOnTheWay(s)
  {
    InitInv();
    ExecInv(INIT, run);
  }

  /** The largest window the receiver had in force during a run. */
  function LargestWindow(run: seq<Step>): nat {
    if run == [] then INITIAL_WINDOW
    else
      var before := LargestWindow(run[..|run| - 1]);
      match run[|run| - 1]
      case StRSetSize(max) => Max(before, max)
      case _ => before
  }

  lemma {:induction false} ExecAppend(s: State, run: seq<Step>, st: Step)
    requires Exec(s, run + [st]).Some?
    ensures Exec(s, run).Some? && Enabled(Exec(s, run).value, st)
    ensures Exec(s, run + [st]) == Some(Do(Exec(s, run).value, st))
    decreases |run|
  {
    if run != [] {
      assert (run + [st])[1..] == run[1..] + [st];
      ExecAppend(Do(s, run[0]), run[1..], st);
    } else {
      assert run + [st] == [st] && [st][1..] == [];
    }
  }

  lemma StepPeak(s: State, st: Step)
    requires Enabled(s, st)
    ensures Do(s, st).h.peak == if st.StRSetSize? then Max(s.h.peak, st.max) else s.h.peak
  {
  }

  lemma {:induction false} PeakIsLargestWindow(run: seq<Step>, s: State)
    requires Exec(INIT, run) == Some(s)
    ensures s.h.peak == LargestWindow(run)
    decreases |run|
  {
    if run != [] {
      var prev, st := run[..|run| - 1], run[|run| - 1];
      assert run == prev + [st];
      ExecAppend(INIT, prev, st);
      PeakIsLargestWindow(prev, Exec(INIT, prev).value);
      StepPeak(Exec(INIT, prev).value, st);
    }
  }

  /** What the receiver has buffered for the connection. */
  function Buffered(s: State): nat { s.q.len + Unreported(s.d) }

  /** Outstanding bytes, and so the receiver's memory, stay within the largest window ever in
      force, also when a window shrinks between the writer's load and its swap. */
  lemma BoundedMemory(run: seq<Step>, s: State)
    requires Exec(INIT, run) == Some(s)
    ensures Buffered(s) <= s.sw.done + Uncounted(s.w) <= LargestWindow(run) <= MAX_WINDOW
  {
    InitInv();
    ExecInv(INIT, run);
    PeakIsLargestWindow(run, s);
  }

  /** The defensive branches are never taken: a credit never exceeds the outstanding count,
      neither 31-bit counter overflows, and `sent` never spins on an overflow. */
  lemma DefensiveBranchesUnreachable(run: seq<Step>, s: State)
    requires Exec(INIT, run) == Some(s)
    ensures s.z.pc.SLoop? ==> s.z.c.read <= s.sw.done
    ensures s.w.pc.WSized? ==> WSentLoad(s) == s.(w := s.w.(pc := WSent, ptrs := s.sw))
    ensures s.d.pc.DStatSwap? && s.rw == s.d.ptrs ==> s.rw.done <= Mask(s.rw.done + |s.d.cur.buf|)
    ensures s.z.pc.SSwap? && s.z.newWait ==> s.sw == s.z.ptrs
  {
    InitInv();
    ExecInv(INIT, run);
    if s.z.pc.SLoop? { CreditCovered(s); }
    if s.d.pc.DStatSwap? { ReportCovered(s); }
  }

  /** The wait flag means no room, and every time it was set is matched by one signal, except
      the one the blocked writer is still waiting for. */
  lemma WaitFlagMatchesSignals(run: seq<Step>, s: State)
    requires Exec(INIT, run) == Some(s)
    ensures s.sw.wait ==> Remaining(s.sw.max, s.sw.done) == 0 && s.w.pc.WBlocked?
    ensures s.w.pc.WBlocked? <==> s.sw.wait || s.z.pc.SAllow?
    ensures s.h.marks == s.h.allows + (if s.w.pc.WBlocked? then 1 else 0)
  {
    InitInv();
    ExecInv(INIT, run);
  }

  // ----- No stuck sender -----

  /** No thread of either side can move; only the application could do something. */
  ghost predicate Quiescent(s: State) {
    forall st: Step | !st.AppWrite? && !st.AppRead? :: !Enabled(s, st)
  }

  lemma QuiescentSending(s: State)
    requires Quiescent(s)
    ensures s.w.pc.WIdle? || s.w.pc.WBlocked?
    ensures (s.z.pc.SIdle? && s.credits == []) || (s.z.pc.SAllow? && !s.w.pc.WBlocked?)
  {
    assert !Enabled(s, StWLoad) && !Enabled(s, StWSetWait) && !Enabled(s, StWSentLoad);
    assert !Enabled(s, StWSentSwap) && !Enabled(s, StWSendInfo);
    assert !Enabled(s, StSReceive) && !Enabled(s, StSLoad) && !Enabled(s, StSTrySwap) && !Enabled(s, StAllow);
  }

  lemma QuiescentPushing(s: State)
    requires Quiescent(s)
    ensures (s.p.pc.RIdle? && s.data == []) || (s.p.pc.RWake? && !s.d.pc.DBlocked?)
  {
    QuiescentReceiving(s);
    assert !Enabled(s, StRAddLen) && !Enabled(s, StREnqueue) && !Enabled(s, StRAllowPop) && !Enabled(s, StRSendInfo);
  }

  lemma QuiescentReceiving(s: State)
    requires Quiescent(s)
    ensures s.p.pc.RIdle? ==> s.data == []
    ensures !s.p.pc.RCalc? && !s.p.pc.RLoad? && !s.p.pc.RLen? && !s.p.pc.RSwap?
  {
    assert !Enabled(s, StRReceive) && !Enabled(s, StRKeepSize) && !Enabled(s, StRLoadWord);
    assert !Enabled(s, StRReadLen) && !Enabled(s, StRTrySwap);
  }

  lemma QuiescentPopping(s: State)
    requires Quiescent(s)
    ensures !s.d.pc.DPop? && !s.d.pc.DMark? && !s.d.pc.DTaken? && (s.d.pc.DTake? ==> s.q.chain == [])
  {
    assert !Enabled(s, StDLoadLen) && !Enabled(s, StDSetWait) && !Enabled(s, StDDequeue) && !Enabled(s, StDSubLen);
  }

  lemma QuiescentReading(s: State)
    requires Quiescent(s) && ReaderShape(s.d)
    ensures s.d.pc.DIdle? || s.d.pc.DBlocked? || (s.d.pc.DTake? && s.q.chain == [])
  {
    QuiescentPopping(s);
    assert !Enabled(s, StDCopyOut) && !Enabled(s, StDLoadWord) && !Enabled(s, StDReadLen);
    assert !Enabled(s, StDTrySwap) && !Enabled(s, StDSendInfo);
  }

  /** A quiescent state in which the writer waits has bytes the application has not asked for. */
  lemma StuckOnlyForTheApplication(s: State)
    requires Inv(s) && Quiescent(s)
    ensures s.w.pc.WBlocked? ==> s.d.pc.DIdle? && Buffered(s) > 0
    ensures s.d.pc.DBlocked? ==> s.w.pc.WIdle? && Pending(s) == []
    ensures s.w.pc.WIdle? || s.d.pc.DIdle?
  {
    QuiescentSending(s);
    QuiescentPushing(s);
    QuiescentReading(s);
    assert s.z.pc.SIdle? && s.p.pc.RIdle?;
    assert s.q.len == Bytes(s.q.chain);
    if s.q.chain != [] { assert FrameOk(s.q.chain[0]); }
  }

  /** No lost wakeup and no stuck sender: in every run, once nothing inside the connection can
      move, a blocked writer faces a reader that is not reading and has bytes to read; and a
      reader that waits for data has been given every byte ever written. */
  lemma NoStuckSender(run: seq<Step>, s: State)
    requires Exec(INIT, run) == Some(s) && Quiescent(s)
    ensures s.w.pc.WBlocked? ==> s.d.pc.DIdle? && Buffered(s) > 0
    ensures s.d.pc.DBlocked? ==> s.w.pc.WIdle? && s.h.consumed == StreamOf(s.h.written)
  {
    InitInv();
    ExecInv(INIT, run);
    ExecStream(INIT, run);
    StuckOnlyForTheApplication(s);
  }

  /** With both message streams empty, the receiving threads at rest and everything read, no
      count is left unreported and the writer is not waiting. */
  lemma DrainedMeansUnblocked(run: seq<Step>, s: State)
    requires Exec(INIT, run) == Some(s)
    requires s.data == [] && s.credits == [] && s.z.pc.SIdle? && s.p.pc.RIdle? && s.q.len == 0
    requires (s.d.pc.DIdle? || s.d.pc.DBlocked?) && s.d.off == |s.d.cur.buf|
    ensures s.rw.done == 0 && !s.sw.wait && !s.w.pc.WBlocked?
  {
    InitInv();
    ExecInv(INIT, run);
  }

  // ----- Stream correctness -----

  /** The length of a Read with a buffer of `n` bytes from a stream: up to the end of the
      first Write, or the end of the buffer. */
  function CutLength(stream: seq<Tok>, n: nat): (k: nat)
    ensures k <= n && k <= |stream|
  {
    if n == 0 || stream == [] then 0
    else if stream[0].last then 1
    else 1 + CutLength(stream[1..], n - 1)
  }

  /** The results of successive Reads of given sizes from a stream. */
  function Results(stream: seq<Tok>, sizes: seq<nat>): (r: seq<seq<Tok>>)
    ensures |r| == |sizes|
  {
    if sizes == [] then []
    else
      var k := CutLength(stream, sizes[0]);
      [stream[..k]] + Results(stream[k..], sizes[1..])
  }

  lemma {:induction false} GoodReadIsCut(r: ReadRec, rest: seq<Tok>)
    requires GoodRead(r)
    ensures CutLength(r.toks + rest, r.size) == |r.toks|
    decreases |r.toks|
  {
    var stream := r.toks + rest;
    if |r.toks| == 1 {
      assert stream[0] == r.toks[0];
      assert CutLength(stream, r.size) == 1 by {
        if !stream[0].last { assert CutLength(stream[1..], 0) == 0; }
      }
    } else {
      assert r.toks[..|r.toks| - 1][0] == stream[0];
      var shorter := ReadRec(r.size - 1, r.toks[1..]);
      assert shorter.toks[..|shorter.toks| - 1] == r.toks[..|r.toks| - 1][1..];
      assert stream[1..] == shorter.toks + rest;
      GoodReadIsCut(shorter, rest);
    }
  }

  function Sizes(rs: seq<ReadRec>): (r: seq<nat>)
    ensures |r| == |rs| && forall i | 0 <= i < |rs| :: r[i] == rs[i].size
  {
    if rs == [] then [] else [rs[0].size] + Sizes(rs[1..])
  }

  lemma {:induction false} JoinedFirst(rs: seq<ReadRec>)
    requires rs != []
    ensures Joined(rs) == rs[0].toks + Joined(rs[1..])
    decreases |rs|
  {
    if |rs| == 1 {
      assert rs[..0] == [] && rs[1..] == [];
      assert Joined(rs) == Joined(rs[..0]) + rs[0].toks;
    } else {
      var init, z := rs[..|rs| - 1], rs[|rs| - 1];
      JoinedFirst(init);
      assert rs[1..][..|rs| - 2] == init[1..];
      assert rs[0].toks + (Joined(init[1..]) + z.toks) == (rs[0].toks + Joined(init[1..])) + z.toks;
    }
  }

  lemma {:induction false} GoodReadsAreResults(rs: seq<ReadRec>, rest: seq<Tok>)
    requires forall i | 0 <= i < |rs| :: GoodRead(rs[i])
    ensures forall i | 0 <= i < |rs| :: rs[i].toks == Results(Joined(rs) + rest, Sizes(rs))[i]
    decreases |rs|
  {
    if rs != [] {
      JoinedFirst(rs);
      var tail := Joined(rs[1..]) + rest;
      var stream := Joined(rs) + rest;
      assert stream == rs[0].toks + tail;
      GoodReadIsCut(rs[0], tail);
      assert stream[|rs[0].toks|..] == tail && stream[..|rs[0].toks|] == rs[0].toks;
      GoodReadsAreResults(rs[1..], tail[|Joined(rs[1..])|..]);
      assert tail[|Joined(rs[1..])|..] == rest;
      assert Sizes(rs)[1..] == Sizes(rs[1..]);
      forall i | 0 <= i < |rs| ensures rs[i].toks == Results(stream, Sizes(rs))[i] {
        if i > 0 { assert rs[i] == rs[1..][i - 1]; }
      }
    }
  }

  lemma RunStream(run: seq<Step>, s: State)
    requires Exec(INIT, run) == Some(s)
    ensures Joined(s.h.finished) <= s.h.consumed <= StreamOf(s.h.written)
    ensures forall i | 0 <= i < |s.h.finished| :: GoodRead(s.h.finished[i])
  {
    InitInv();
    ExecInv(INIT, run);
    ExecStream(INIT, run);
  }

  /** Stream correctness: what the Reads of any run returned is a function of the bytes
      written and the buffer sizes alone, not of the interleaving, chunking or windows. */
  lemma StreamCorrect(run: seq<Step>, s: State)
    requires Exec(INIT, run) == Some(s)
    ensures s.h.consumed <= StreamOf(s.h.written)
    ensures Joined(s.h.finished) <= StreamOf(s.h.written)
    ensures forall i | 0 <= i < |s.h.finished| ::
              s.h.finished[i].toks == Results(StreamOf(s.h.written), Sizes(s.h.finished))[i]
  {
    RunStream(run, s);
    var stream, done := StreamOf(s.h.written), Joined(s.h.finished);
    assert stream == done + stream[|done|..];
    GoodReadsAreResults(s.h.finished, stream[|done|..]);
  }

  /** A Read that starts at the beginning of a Write and has room for it returns exactly it. */
  lemma {:induction false} FittingReadIsTheWrite(msg: seq<bv8>, rest: seq<Tok>, n: nat)
    requires 0 < |msg| <= n
    ensures CutLength(MsgToks(msg) + rest, n) == |msg|
    ensures (MsgToks(msg) + rest)[..|msg|] == MsgToks(msg)
    decreases |msg|
  {
    var stream := MsgToks(msg) + rest;
    if |msg| > 1 {
      assert stream[1..] == MsgToks(msg[1..]) + rest;
      FittingReadIsTheWrite(msg[1..], rest, n - 1);
    } else {
      assert stream[0] == MsgToks(msg)[0];
    }
  }

  /** No Read spans two Writes: only its final byte can be the final byte of a Write. */
  lemma {:induction false} ReadStaysInOneWrite(stream: seq<Tok>, n: nat)
    ensures var k := CutLength(stream, n);
      && NoLast(stream[..if k == 0 then 0 else k - 1])
      && (k < n && k < |stream| ==> k > 0 && stream[k - 1].last)
    decreases n
  {
    if n > 0 && stream != [] && !stream[0].last {
      ReadStaysInOneWrite(stream[1..], n - 1);
      var j := CutLength(stream[1..], n - 1);
      if j > 0 {
        assert stream[..j] == [stream[0]] + stream[1..][..j - 1];
        assert stream[1..][j - 1] == stream[j];
      }
    }
  }

  lemma {:induction false} JoinedPrefix(rs: seq<ReadRec>, i: nat)
    requires i < |rs|
    ensures Joined(rs[..i]) + rs[i].toks <= Joined(rs)
    decreases |rs|
  {
    var init := rs[..|rs| - 1];
    if i < |rs| - 1 {
      JoinedPrefix(init, i);
      assert init[..i] == rs[..i];
    }
  }

  lemma {:induction false} StreamOfSplit(ws: seq<seq<bv8>>, k: nat)
    requires k <= |ws|
    ensures StreamOf(ws) == StreamOf(ws[..k]) + StreamOf(ws[k..])
    decreases k
  {
    if k == 0 {
      assert ws[..0] == [] && ws[0..] == ws;
    } else {
      var front, back := ws[..k], ws[k..];
      StreamOfSplit(ws[1..], k - 1);
      assert front[1..] == ws[1..][..k - 1] && back == ws[1..][k - 1..];
      assert StreamOf(front) == MsgToks(ws[0]) + StreamOf(front[1..]);
      Regroup(MsgToks(ws[0]), StreamOf(front[1..]), StreamOf(back));
    }
  }

  lemma Regroup(a: seq<Tok>, b: seq<Tok>, c: seq<Tok>)
    ensures a + (b + c) == (a + b) + c
  {
  }

  /** The Reads finished up to one of them have returned a prefix of what was written. */
  lemma ReadsAreAPrefix(run: seq<Step>, s: State, i: nat)
    requires Exec(INIT, run) == Some(s) && i < |s.h.finished|
    ensures Joined(s.h.finished[..i]) + s.h.finished[i].toks <= StreamOf(s.h.written)
    ensures GoodRead(s.h.finished[i]) && forall k | 0 <= k < |s.h.written| :: 0 < |s.h.written[k]|
  {
    InitInv();
    ExecInv(INIT, run);
    ExecStream(INIT, run);
    JoinedPrefix(s.h.finished, i);
    assert Joined(s.h.finished) <= s.h.consumed <= StreamOf(s.h.written);
  }

  /** In any run, a Read issued when exactly the first `k` Writes had been read, with a buffer
      that fits the next Write, returned exactly that Write. */
  lemma FittingReadReturnsTheWrite(run: seq<Step>, s: State, i: nat, k: nat)
    requires Exec(INIT, run) == Some(s)
    requires i < |s.h.finished| && k < |s.h.written| && |s.h.written[k]| <= s.h.finished[i].size
    requires Joined(s.h.finished[..i]) == StreamOf(s.h.written[..k])
    ensures s.h.finished[i].toks == MsgToks(s.h.written[k])
  {
    ReadsAreAPrefix(run, s, i);
    ReadAtBoundary(s.h.written, k, s.h.finished[i]);
  }

  lemma StreamAround(written: seq<seq<bv8>>, k: nat)
    requires k < |written|
    ensures StreamOf(written) == StreamOf(written[..k]) + (MsgToks(written[k]) + StreamOf(written[k + 1..]))
  {
    StreamOfSplit(written, k);
    assert written[k..][1..] == written[k + 1..];
  }

  /** A good Read that starts where Write `k` does and fits it is that Write. */
  lemma ReadAtBoundary(written: seq<seq<bv8>>, k: nat, r: ReadRec)
    requires k < |written| && 0 < |written[k]| <= r.size && GoodRead(r)
    requires StreamOf(written[..k]) + r.toks <= StreamOf(written)
    ensures r.toks == MsgToks(written[k])
  {
    StreamAround(written, k);
    var before, tail := StreamOf(written[..k]), MsgToks(written[k]) + StreamOf(written[k + 1..]);
    PrefixBehind(before, r.toks, tail);
    GoodReadIsCut(r, tail[|r.toks|..]);
    FittingReadIsTheWrite(written[k], StreamOf(written[k + 1..]), r.size);
  }

  lemma PrefixBehind(a: seq<Tok>, b: seq<Tok>, c: seq<Tok>)
    requires a + b <= a + c
    ensures b <= c && b + c[|b|..] == c
  {
    assert (a + b)[|a|..] == b && (a + c)[|a|..] == c;
    forall i | 0 <= i < |b| ensures b[i] == c[i] { assert (a + b)[|a| + i] == (a + c)[|a| + i]; }
  }

  /** The bytes of a stream of tokens. */
  function Data(toks: seq<Tok>): (d: seq<bv8>)
    ensures |d| == |toks|
  {
    seq(|toks|, i requires 0 <= i < |toks| => toks[i].b)
  }

  function Flatten(written: seq<seq<bv8>>): seq<bv8> {
    if written == [] then [] else written[0] + Flatten(written[1..])
  }

  lemma {:induction false} DataOfStream(ws: seq<seq<bv8>>)
    ensures Data(StreamOf(ws)) == Flatten(ws)
  {
    if ws != [] {
      DataOfStream(ws[1..]);
      assert Data(MsgToks(ws[0])) == ws[0];
      assert Data(StreamOf(ws)) == Data(MsgToks(ws[0])) + Data(StreamOf(ws[1..]));
    }
  }

  /** The bytes read so far are a prefix of the bytes written so far. */
  lemma BytesReadArePrefix(run: seq<Step>, s: State)
    requires Exec(INIT, run) == Some(s)
    ensures Data(s.h.consumed) <= Flatten(s.h.written)
  {
    StreamCorrect(run, s);
    DataOfStream(s.h.written);
    assert Data(s.h.consumed) == Data(StreamOf(s.h.written))[..|s.h.consumed|];
  }
}
