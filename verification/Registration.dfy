/** The registration handler between its calls to the device table: `handleRegister` looks at the
    block, looks for a credential and stores one in separate steps (internal/server/server.go). */
module Registration {
  import opened Common
  import opened IpPool
  import opened Devices
  import opened DeviceInvariants
  import Sessions

  /** Where a handler is. */
  datatype Pc =
    | Check                                  // about to call IsBlocked
    | Look                                   // about to call Credential
    | Store                                  // about to call SetCredential
    | Again                                  // refused, about to call Credential again
    | Over(reply: Option<(string, string)>)  // answered, or turned away

  /** `id` and `key` are what the handler would generate. */
  datatype Handler = Handler(pc: Pc, hwid: string, name: string, id: string, key: string)

  datatype State = State(book: Book, handlers: seq<Handler>)

  const START: State := State(Sessions.EMPTY.book, [])

  datatype Step =
    | Open(hwid: string, name: string, id: string, key: string)
    | Go(h: nat)
    | ToBlock(hwid: string)
    | ToUnblock(hwid: string)
    | ToClear(hwid: string)

  function Turn(b: Book, h: Handler): (Book, Pc) {
    match h.pc
    case Check => (b, if h.hwid == "" || IsBlocked(b, h.hwid) then Over(None) else Look)
    case Look => (b, if Credential(b, h.hwid).Some? then Over(Credential(b, h.hwid)) else Store)
    case Store =>
      var (c, ok) := SetCredential(b, h.hwid, h.name, h.id, h.key);
      (c, if ok then Over(Some((h.id, h.key))) else Again)
    case Again => (b, Over(Credential(b, h.hwid)))
    case Over(_) => (b, h.pc)
  }

  function Do(s: State, a: Step): State {
    match a
    case Open(hwid, name, id, key) => s.(handlers := s.handlers + [Handler(Check, hwid, name, id, key)])
    case Go(h) =>
      if h < |s.handlers| then
        var (c, pc) := Turn(s.book, s.handlers[h]);
        State(c, s.handlers[h := s.handlers[h].(pc := pc)])
      else s
    case ToBlock(hwid) => s.(book := Block(s.book, hwid).0)
    case ToUnblock(hwid) => s.(book := Unblock(s.book, hwid).0)
    case ToClear(hwid) => s.(book := ClearCredential(s.book, hwid).0)
  }

  function At(run: seq<Step>, n: nat): State
    requires n <= |run|
  {
    if n == 0 then START else Do(At(run, n - 1), run[n - 1])
  }

  /** Handler `h` stores a credential for a blocked device at this step. */
  predicate StoresBlocked(s: State, a: Step) {
    a.Go? && a.h < |s.handlers| && s.handlers[a.h].pc == Store
    && var x := s.handlers[a.h];
       IsBlocked(s.book, x.hwid) && SetCredential(s.book, x.hwid, x.name, x.id, x.key).1
  }

  /** Step `i` is the check of handler `h`, and it found the device not blocked. */
  predicate Passes(run: seq<Step>, i: nat, h: nat)
    requires i < |run|
  {
    run[i] == Go(h) && h < |At(run, i).handlers| && At(run, i).handlers[h].pc == Check
    && At(run, i).handlers[h].hwid != "" && !IsBlocked(At(run, i).book, At(run, i).handlers[h].hwid)
  }

  /** Step `m` stores a credential for a device that was blocked between the handler's check and
      now. */
  ghost predicate Overtaken(run: seq<Step>, m: nat)
    requires m < |run|
  {
    StoresBlocked(At(run, m), run[m]) &&
    exists i, j | 0 <= i < j < m ::
      Passes(run, i, run[m].h) && run[j] == ToBlock(At(run, m).handlers[run[m].h].hwid)
  }

  // ----- What a step does -----

  lemma StepBlocks(s: State, a: Step, hwid: string)
    requires !IsBlocked(s.book, hwid) && IsBlocked(Do(s, a).book, hwid)
    ensures a == ToBlock(hwid)
  {
  }

  lemma TurnKeepsNone(b: Book, h: Handler)
    requires BlockedHaveNone(b)
    requires h.pc == Store ==> !(IsBlocked(b, h.hwid) && SetCredential(b, h.hwid, h.name, h.id, h.key).1)
    ensures BlockedHaveNone(Turn(b, h).0)
  {
  }

  lemma StepKeepsNone(s: State, a: Step)
    requires BlockedHaveNone(s.book) && !StoresBlocked(s, a)
    ensures BlockedHaveNone(Do(s, a).book)
  {
    if a.Go? && a.h < |s.handlers| { TurnKeepsNone(s.book, s.handlers[a.h]); }
  }

  lemma StoreBreaks(s: State, a: Step)
    requires StoresBlocked(s, a)
    ensures !BlockedHaveNone(Do(s, a).book)
  {
    var x := s.handlers[a.h];
    var c := SetCredential(s.book, x.hwid, x.name, x.id, x.key).0;
    assert c.recs[x.hwid].blocked && c.recs[x.hwid].deviceId == x.id != "";
  }

  lemma HandlerStays(s: State, a: Step, h: nat)
    requires h < |s.handlers|
    ensures h < |Do(s, a).handlers| && Do(s, a).handlers[h].hwid == s.handlers[h].hwid
    ensures !(a.Go? && a.h == h) ==> Do(s, a).handlers[h] == s.handlers[h]
  {
  }

  /** A handler past its check has passed it. */
  lemma {:induction false} PassedSomewhere(run: seq<Step>, m: nat, h: nat) returns (i: nat)
    requires m <= |run| && h < |At(run, m).handlers|
    requires At(run, m).handlers[h].pc == Look || At(run, m).handlers[h].pc == Store
    ensures i < m && Passes(run, i, h) && h < |At(run, i).handlers|
    ensures At(run, i).handlers[h].hwid == At(run, m).handlers[h].hwid
  {
    var u := At(run, m - 1);
    assert h < |u.handlers|;
    HandlerStays(u, run[m - 1], h);
    if run[m - 1] == Go(h) && u.handlers[h].pc == Check { i := m - 1; } else { i := PassedSomewhere(run, m - 1, h); }
  }

  /** A device that is blocked and was not has been blocked since. */
  lemma {:induction false} BlockedSomewhere(run: seq<Step>, i: nat, m: nat, hwid: string) returns (j: nat)
    requires i <= m <= |run| && !IsBlocked(At(run, i).book, hwid) && IsBlocked(At(run, m).book, hwid)
    ensures i <= j < m && run[j] == ToBlock(hwid)
  {
    if IsBlocked(At(run, m - 1).book, hwid) {
      j := BlockedSomewhere(run, i, m - 1, hwid);
    } else {
      j := m - 1;
      StepBlocks(At(run, j), run[j], hwid);
    }
  }

  lemma StoreIsOvertaken(run: seq<Step>, m: nat)
    requires m < |run| && StoresBlocked(At(run, m), run[m])
    ensures Overtaken(run, m)
  {
    var h := run[m].h;
    var i := PassedSomewhere(run, m, h);
    var j := BlockedAfter(run, i, m, h);
  }

  lemma BlockedAfter(run: seq<Step>, i: nat, m: nat, h: nat) returns (j: nat)
    requires i < m <= |run| && Passes(run, i, h) && h < |At(run, m).handlers|
    requires At(run, i).handlers[h].hwid == At(run, m).handlers[h].hwid
    requires IsBlocked(At(run, m).book, At(run, m).handlers[h].hwid)
    ensures i < j < m && run[j] == ToBlock(At(run, m).handlers[h].hwid)
  {
    j := BlockedSomewhere(run, i, m, At(run, m).handlers[h].hwid);
  }

  // ----- Over every run -----

  /** What holds at the start and is kept by the steps of a run holds throughout it. */
  lemma {:induction false} Induct(p: State -> bool, run: seq<Step>, n: nat)
    requires n <= |run| && p(START) && forall m | 0 <= m < n && p(At(run, m)) :: p(At(run, m + 1))
    ensures p(At(run, n))
  {
    if n > 0 { Induct(p, run, n - 1); }
  }

  lemma NoneUntil(run: seq<Step>, n: nat)
    requires n <= |run| && forall m | 0 <= m < n :: !StoresBlocked(At(run, m), run[m])
    ensures BlockedHaveNone(At(run, n).book)
  {
    var p := (s: State) => BlockedHaveNone(s.book);
    forall m | 0 <= m < n && p(At(run, m)) ensures p(At(run, m + 1)) { StepKeepsNone(At(run, m), run[m]); }
    Induct(p, run, n);
  }

  /** A blocked device never has a credential. */
  predicate Honoured(run: seq<Step>) { forall n | 0 <= n <= |run| :: BlockedHaveNone(At(run, n).book) }

  /** No handler is overtaken by a block between its check and its store. */
  ghost predicate Undisturbed(run: seq<Step>) { forall m | 0 <= m < |run| :: !Overtaken(run, m) }

  lemma UndisturbedIsHonoured(run: seq<Step>)
    requires Undisturbed(run)
    ensures Honoured(run)
  {
    forall m | 0 <= m < |run| ensures !StoresBlocked(At(run, m), run[m]) {
      if StoresBlocked(At(run, m), run[m]) { StoreIsOvertaken(run, m); }
    }
    forall n | 0 <= n <= |run| ensures BlockedHaveNone(At(run, n).book) { NoneUntil(run, n); }
  }

  lemma OvertakenIsNot(run: seq<Step>, m: nat)
    requires m < |run| && Overtaken(run, m)
    ensures !BlockedHaveNone(At(run, m + 1).book)
  {
    StoreBreaks(At(run, m), run[m]);
  }

  /** A block is honoured throughout a run, in that a blocked device never has a credential,
      exactly when no handler is overtaken by it between its check and its store. */
  lemma BlockHonouredExactly(run: seq<Step>)
    ensures Honoured(run) <==> Undisturbed(run)
  {
    if Undisturbed(run) {
      UndisturbedIsHonoured(run);
    } else {
      var m :| 0 <= m < |run| && Overtaken(run, m);
      OvertakenIsNot(run, m);
    }
  }

  /** A run in which a blocked device ends up with a credential. */
  lemma BlockCanBeOvertaken()
    ensures exists run: seq<Step> :: |run| == 5 && !BlockedHaveNone(At(run, 5).book)
  {
    var run := [Open("d", "", "i", "k"), Go(0), Go(0), ToBlock("d"), Go(0)];
    var x := Handler(Check, "d", "", "i", "k");
    var b := START.book;
    assert At(run, 1) == State(b, [x]);
    assert At(run, 2) == State(b, [x.(pc := Look)]);
    assert At(run, 3) == State(b, [x.(pc := Store)]);
    var c := b.(recs := map["d" := NEW_REC.(blocked := true)]);
    assert Block(b, "d").0 == c;
    assert At(run, 4) == State(c, [x.(pc := Store)]);
    StoreBreaks(At(run, 4), run[4]);
  }
}
