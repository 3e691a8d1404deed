/** The growing chain of rings (`bufChain`, nps-master/lib/nps_mux/queue.go) with one producer
    and one consumer, at the granularity of its loads, stores and compare-and-swaps.

    Rings are numbered in the order they are allocated. */
module BufChain {
  import opened Common
  import opened BufRing

  datatype ProducerPc =
    | PIdle
    | PGate       // about to load newChain
    | PHead       // about to load the chain's head
    | PLoad       // about to load the ring's index word
    | PSwap       // about to claim a slot
    | PStore      // claimed, about to store
    | PGrow       // ring was full, about to swap newChain
    | PLinkHead   // new ring built, about to store the chain's head
    | PLinkNext   // about to store the old ring's next
    | PClear      // about to clear newChain
  datatype Producer = Producer(pc: ProducerPc, val: int, d: nat, ptrs: nat, slot: nat, d2: Ring)

  datatype ConsumerPc =
    | CIdle
    | CTail       // about to load the chain's tail
    | CNext       // about to load the ring's next
    | CLoad       // about to load the ring's index word
    | CSlot       // about to load the slot
    | CTake       // about to empty the slot
    | CAdd        // about to move the tail index
    | CDrop       // ring drained, about to move the chain's tail
  /** `seen` is what the queue held when `next` was loaded and found nil. */
  datatype Consumer = Consumer(pc: ConsumerPc, d: nat, d2: Option<nat>, ptrs: nat, val: int, seen: seq<int>)

  /** `pushed`, `popped`: values in the order the chain accepted and returned them. */
  datatype State = State(rings: seq<Ring>, head: nat, tail: nat, newChain: bool, p: Producer, c: Consumer,
                         pushed: seq<int>, popped: seq<int>)

  function Init(size: nat): State {
    State([NewRing(size)], 0, 0, false, Producer(PIdle, 0, 0, 0, 0, NewRing(0)),
          Consumer(CIdle, 0, None, 0, 0, []), [], [])
  }

  // ----- pushHead -----

  function PLoadGate(s: State): State {
    if s.newChain then s else s.(p := s.p.(pc := PHead))
  }

  function PLoadHead(s: State): State {
    s.(p := s.p.(pc := PLoad, d := s.head))
  }

  function PLoadIdx(s: State): State
    requires s.p.d < |s.rings|
  {
    var r := s.rings[s.p.d];
    s.(p := s.p.(pc := if Full(r.headTail, |r.vals|) then PGrow else PSwap, ptrs := r.headTail))
  }

  function PTryClaim(s: State): State
    requires s.p.d < |s.rings| && |s.rings[s.p.d].vals| > 0
  {
    var r := s.rings[s.p.d];
    if r.headTail == s.p.ptrs then
      s.(rings := s.rings[s.p.d := Claim(r, s.p.val)], pushed := s.pushed + [s.p.val],
         p := s.p.(pc := PStore, slot := At(HeadOf(s.p.ptrs), |r.vals|)))
    else s.(p := s.p.(pc := PLoad))
  }

  function PStoreVal(s: State): State
    requires s.p.d < |s.rings| && s.p.slot < |s.rings[s.p.d].vals|
  {
    s.(rings := s.rings[s.p.d := Store(s.rings[s.p.d], s.p.slot, s.p.val)], p := s.p.(pc := PIdle))
  }

  /** Twice the size, up to the limit. */
  function NewSize(n: nat): nat { if n * 2 >= LIMIT then LIMIT else n * 2 }

  /** The new ring, already holding `val`: `pushHead` on a ring nobody else has seen. */
  function GrownRing(n: nat, val: int): Ring
    requires NewSize(n) > 0
  {
    Store(Claim(NewRing(NewSize(n)), val), 0, val)
  }

  function PTryGrow(s: State): State
    requires s.p.d < |s.rings| && |s.rings[s.p.d].vals| > 0
  {
    if s.newChain then s.(p := s.p.(pc := PGate))
    else s.(newChain := true, p := s.p.(pc := PLinkHead, d2 := GrownRing(|s.rings[s.p.d].vals|, s.p.val)))
  }

  function PStoreHead(s: State): State {
    s.(rings := s.rings + [s.p.d2], head := |s.rings|, p := s.p.(pc := PLinkNext))
  }

  /** The consumer can reach the new ring, and its first value, from here on. */
  function PStoreNext(s: State): State
    requires s.p.d < |s.rings|
  {
    s.(rings := s.rings[s.p.d := s.rings[s.p.d].(next := Some(s.head))], pushed := s.pushed + [s.p.val],
       p := s.p.(pc := PClear))
  }

  function PClearFlag(s: State): State {
    s.(newChain := false, p := s.p.(pc := PIdle))
  }

  // ----- popTail -----

  function CLoadTail(s: State): State {
    s.(c := s.c.(pc := CNext, d := s.tail))
  }

  function CLoadNext(s: State): State
    requires s.c.d < |s.rings| && s.rings[s.c.d].taken <= |s.rings[s.c.d].items|
  {
    var r := s.rings[s.c.d];
    s.(c := s.c.(pc := CLoad, d2 := r.next, seen := r.items[r.taken..]))
  }

  function CLoadIdx(s: State): State
    requires s.c.d < |s.rings|
  {
    var w := s.rings[s.c.d].headTail;
    if TailOf(w) != HeadOf(w) then s.(c := s.c.(pc := CSlot, ptrs := w))
    else if s.c.d2.Some? then s.(c := s.c.(pc := CDrop))
    else s.(c := s.c.(pc := CIdle))
  }

  function CLoadSlot(s: State): State
    requires s.c.d < |s.rings| && |s.rings[s.c.d].vals| > 0
  {
    var r := s.rings[s.c.d];
    match r.vals[At(TailOf(s.c.ptrs), |r.vals|)]
    case Nil => s.(c := s.c.(pc := CLoad)) // claimed, not stored yet: try again
    case Ptr(v) => s.(c := s.c.(pc := CTake, val := v))
  }

  function CTryTake(s: State): State
    requires s.c.d < |s.rings| && |s.rings[s.c.d].vals| > 0
  {
    var r := s.rings[s.c.d];
    var slot := At(TailOf(s.c.ptrs), |r.vals|);
    if r.vals[slot] == Ptr(s.c.val) then
      s.(rings := s.rings[s.c.d := Take(r, slot)], popped := s.popped + [s.c.val], c := s.c.(pc := CAdd))
    else s.(c := s.c.(pc := CLoad))
  }

  function CAddTail(s: State): State
    requires s.c.d < |s.rings|
  {
    s.(rings := s.rings[s.c.d := Count(s.rings[s.c.d], TailOf(s.c.ptrs))], c := s.c.(pc := CIdle))
  }

  function CDropRing(s: State): State
    requires s.c.d2.Some?
  {
    s.(tail := if s.tail == s.c.d then s.c.d2.value else s.tail, c := s.c.(pc := CNext, d := s.c.d2.value))
  }

  // ----- Runs -----

  datatype Step =
    | Push(val: int) | Pop
    | StPLoadGate | StPLoadHead | StPLoadIdx | StPTryClaim | StPStoreVal | StPTryGrow
    | StPStoreHead | StPStoreNext | StPClearFlag
    | StCLoadTail | StCLoadNext | StCLoadIdx | StCLoadSlot | StCTryTake | StCAddTail | StCDropRing

  predicate PRing(s: State) { s.p.d < |s.rings| && |s.rings[s.p.d].vals| > 0 }
  predicate CRing(s: State) {
    s.c.d < |s.rings| && |s.rings[s.c.d].vals| > 0 && s.rings[s.c.d].taken <= |s.rings[s.c.d].items|
  }

  /** Whether the step's thread is at that step.  The indices it uses are
      always in range: see `BufChainTheorems.IndicesInRange`. */
  predicate Enabled(s: State, st: Step) {
    match st
    case Push(_) => s.p.pc.PIdle?
    case StPLoadGate => s.p.pc.PGate?
    case StPLoadHead => s.p.pc.PHead?
    case StPLoadIdx => s.p.pc.PLoad? && PRing(s)
    case StPTryClaim => s.p.pc.PSwap? && PRing(s)
    case StPStoreVal => s.p.pc.PStore? && PRing(s) && s.p.slot < |s.rings[s.p.d].vals|
    case StPTryGrow => s.p.pc.PGrow? && PRing(s)
    case StPStoreHead => s.p.pc.PLinkHead?
    case StPStoreNext => s.p.pc.PLinkNext? && PRing(s)
    case StPClearFlag => s.p.pc.PClear?
    case Pop => s.c.pc.CIdle?
    case StCLoadTail => s.c.pc.CTail?
    case StCLoadNext => s.c.pc.CNext? && CRing(s)
    case StCLoadIdx => s.c.pc.CLoad? && CRing(s)
    case StCLoadSlot => s.c.pc.CSlot? && CRing(s)
    case StCTryTake => s.c.pc.CTake? && CRing(s)
    case StCAddTail => s.c.pc.CAdd? && CRing(s)
    case StCDropRing => s.c.pc.CDrop? && s.c.d2.Some?
  }

  function Do(s: State, st: Step): State
    requires Enabled(s, st)
  {
    match st
    case Push(val) => s.(p := s.p.(pc := PGate, val := val))
    case StPLoadGate => PLoadGate(s)
    case StPLoadHead => PLoadHead(s)
    case StPLoadIdx => PLoadIdx(s)
    case StPTryClaim => PTryClaim(s)
    case StPStoreVal => PStoreVal(s)
    case StPTryGrow => PTryGrow(s)
    case StPStoreHead => PStoreHead(s)
    case StPStoreNext => PStoreNext(s)
    case StPClearFlag => PClearFlag(s)
    case Pop => s.(c := s.c.(pc := CTail))
    case StCLoadTail => CLoadTail(s)
    case StCLoadNext => CLoadNext(s)
    case StCLoadIdx => CLoadIdx(s)
    case StCLoadSlot => CLoadSlot(s)
    case StCTryTake => CTryTake(s)
    case StCAddTail => CAddTail(s)
    case StCDropRing => CDropRing(s)
  }

  function Exec(s: State, run: seq<Step>): Option<State>
    decreases |run|
  {
    if run == [] then Some(s)
    else if Enabled(s, run[0]) then Exec(Do(s, run[0]), run[1..])
    else None
  }
}
