/** The session protocol of the UDP proxy, one step for each atomic access
    (nps-master/server/proxy/udp.go, nps-master/lib/file/obj.go). */
module UdpProxy {
  import opened Common

  /** A session; `owner` is the thread that stored its placeholder, `closes` how often its
      `ready` channel was closed. */
  datatype Session = Session(key: string, owner: nat, target: bool, err: bool, closes: nat)

  /** Where a goroutine is. */
  datatype Pc =
    | Load(key: string)                    // process: addrMap.Load
    | Store(key: string)                   // process: addrMap.LoadOrStore
    | Wait(id: nat)                        // dispatch: select on ready
    | Write(id: nat)                       // dispatch: target.Write
    | Flow(id: nat)                        // CheckFlowAndConnNum: traffic
    | Limit(id: nat)                       // GetConn: compare with the limit
    | Charge(id: nat)                      // GetConn: CutConn
    | Build(id: nat)                       // SendLinkInfo
    | Ready(id: nat)                       // close(ready), target set
    | Serve(id: nat)                       // first write, then the read loop
    | FailClose(id: nat, charged: bool)    // failBuild: err, close(ready)
    | FailDelete(id: nat, charged: bool)   // failBuild: addrMap.Delete
    | Compare(id: nat, owner: bool)        // removeSession: addrMap.Load, compare
    | Delete(id: nat, owner: bool)         // removeSession: addrMap.Delete
    | Return(id: nat)                      // runSession: deferred AddConn
    | Done

  /** `conns` is the client's connection counter, `others` what everybody else has added to it. */
  datatype State = State(addrs: map<string, nat>, sessions: seq<Session>, threads: seq<Pc>,
                         conns: int, others: int, max: nat)

  function Start(conns: int, max: nat): State { State(map[], [], [], conns, conns, max) }

  /** `Arrive` is a packet, `Sweep` the sweeper picking an idle session, `Others` a change of the
      counter from elsewhere; in `Go`, `ok` is the outcome of what the thread does. */
  datatype Step = Arrive(key: string) | Sweep(key: string) | Others(delta: int) | Go(t: nat, ok: bool)

  predicate HasTarget(s: State, id: nat) { id < |s.sessions| && s.sessions[id].target }
  predicate Closed(s: State, id: nat) { id < |s.sessions| && s.sessions[id].closes > 0 }

  predicate Enabled(s: State, a: Step) {
    match a
    case Arrive(_) => true
    case Sweep(key) => key in s.addrs && HasTarget(s, s.addrs[key])
    case Others(_) => true
    case Go(t, ok) =>
      && t < |s.threads| && s.threads[t] != Done
      && (s.threads[t].Wait? ==> Closed(s, s.threads[t].id) || !ok)
  }

  function Move(s: State, t: nat, pc: Pc): State
    requires t < |s.threads|
  {
    s.(threads := s.threads[t := pc])
  }

  function KeyOf(s: State, id: nat): string { if id < |s.sessions| then s.sessions[id].key else "" }

  function SetSession(s: State, id: nat, x: Session): State {
    if id < |s.sessions| then s.(sessions := s.sessions[id := x]) else s
  }

  function SessionOf(s: State, id: nat): Session {
    if id < |s.sessions| then s.sessions[id] else Session("", 0, false, false, 0)
  }

  // ----- One step of a thread, by where it is -----

  function DoLoad(s: State, t: nat): State
    requires t < |s.threads| && s.threads[t].Load?
  {
    var key := s.threads[t].key;
    Move(s, t, if key in s.addrs then Wait(s.addrs[key]) else Store(key))
  }

  function DoStore(s: State, t: nat): State
    requires t < |s.threads| && s.threads[t].Store?
  {
    var key := s.threads[t].key;
    if key in s.addrs then Move(s, t, Wait(s.addrs[key]))
    else
      var id := |s.sessions|;
      Move(s.(addrs := s.addrs[key := id], sessions := s.sessions + [Session(key, t, false, false, 0)]), t, Flow(id))
  }

  function DoWait(s: State, t: nat, ok: bool): State
    requires t < |s.threads| && s.threads[t].Wait?
  {
    var id := s.threads[t].id;
    Move(s, t, if ok && !SessionOf(s, id).err then Write(id) else Done)
  }

  function DoWrite(s: State, t: nat, ok: bool): State
    requires t < |s.threads| && s.threads[t].Write?
  {
    Move(s, t, if ok then Done else Compare(s.threads[t].id, false))
  }

  function DoFlow(s: State, t: nat, ok: bool): State
    requires t < |s.threads| && s.threads[t].Flow?
  {
    Move(s, t, if ok then Limit(s.threads[t].id) else FailClose(s.threads[t].id, false))
  }

  function DoLimit(s: State, t: nat): State
    requires t < |s.threads| && s.threads[t].Limit?
  {
    Move(s, t, if s.max == 0 || s.conns < s.max then Charge(s.threads[t].id) else FailClose(s.threads[t].id, false))
  }

  function DoCharge(s: State, t: nat): State
    requires t < |s.threads| && s.threads[t].Charge?
  {
    Move(s.(conns := s.conns + 1), t, Build(s.threads[t].id))
  }

  function DoBuild(s: State, t: nat, ok: bool): State
    requires t < |s.threads| && s.threads[t].Build?
  {
    var id := s.threads[t].id;
    if ok then Move(SetSession(s, id, SessionOf(s, id).(target := true)), t, Ready(id))
    else Move(s, t, FailClose(id, true))
  }

  function DoReady(s: State, t: nat): State
    requires t < |s.threads| && s.threads[t].Ready?
  {
    var id := s.threads[t].id;
    Move(SetSession(s, id, SessionOf(s, id).(closes := SessionOf(s, id).closes + 1)), t, Serve(id))
  }

  function DoServe(s: State, t: nat, ok: bool): State
    requires t < |s.threads| && s.threads[t].Serve?
  {
    if ok then s else Move(s, t, Compare(s.threads[t].id, true))
  }

  function DoFailClose(s: State, t: nat): State
    requires t < |s.threads| && s.threads[t].FailClose?
  {
    var id := s.threads[t].id;
    Move(SetSession(s, id, SessionOf(s, id).(err := true, closes := SessionOf(s, id).closes + 1)), t,
         FailDelete(id, s.threads[t].charged))
  }

  function DoFailDelete(s: State, t: nat): State
    requires t < |s.threads| && s.threads[t].FailDelete?
  {
    var id := s.threads[t].id;
    Move(s.(addrs := s.addrs - {KeyOf(s, id)}), t, if s.threads[t].charged then Return(id) else Done)
  }

  function After(id: nat, owner: bool): Pc { if owner then Return(id) else Done }

  function DoCompare(s: State, t: nat): State
    requires t < |s.threads| && s.threads[t].Compare?
  {
    var id, owner := s.threads[t].id, s.threads[t].owner;
    Move(s, t, if Stored(s, id) then Delete(id, owner) else After(id, owner))
  }

  function DoDelete(s: State, t: nat): State
    requires t < |s.threads| && s.threads[t].Delete?
  {
    var id := s.threads[t].id;
    Move(s.(addrs := s.addrs - {KeyOf(s, id)}), t, After(id, s.threads[t].owner))
  }

  function DoReturn(s: State, t: nat): State
    requires t < |s.threads| && s.threads[t].Return?
  {
    Move(s.(conns := s.conns - 1), t, Done)
  }

  /** The session is the one under its key. */
  predicate Stored(s: State, id: nat) {
    id < |s.sessions| && KeyOf(s, id) in s.addrs && s.addrs[KeyOf(s, id)] == id
  }

  function DoGo(s: State, t: nat, ok: bool): State
    requires t < |s.threads| && s.threads[t] != Done
  {
    match s.threads[t]
    case Load(_) => DoLoad(s, t)
    case Store(_) => DoStore(s, t)
    case Wait(_) => DoWait(s, t, ok)
    case Write(_) => DoWrite(s, t, ok)
    case Flow(_) => DoFlow(s, t, ok)
    case Limit(_) => DoLimit(s, t)
    case Charge(_) => DoCharge(s, t)
    case Build(_) => DoBuild(s, t, ok)
    case Ready(_) => DoReady(s, t)
    case Serve(_) => DoServe(s, t, ok)
    case FailClose(_, _) => DoFailClose(s, t)
    case FailDelete(_, _) => DoFailDelete(s, t)
    case Compare(_, _) => DoCompare(s, t)
    case Delete(_, _) => DoDelete(s, t)
    case Return(_) => DoReturn(s, t)
  }

  function Do(s: State, a: Step): State
    requires Enabled(s, a)
  {
    match a
    case Arrive(key) => s.(threads := s.threads + [Load(key)])
    case Sweep(key) => s.(threads := s.threads + [Compare(s.addrs[key], false)])
    case Others(delta) => s.(conns := s.conns + delta, others := s.others + delta)
    case Go(t, ok) => DoGo(s, t, ok)
  }

  /** A step that is not enabled does nothing. */
  function Try(s: State, a: Step): State { if Enabled(s, a) then Do(s, a) else s }

  /** The state after the first `n` steps of a run. */
  function At(s: State, run: seq<Step>, n: nat): State
    requires n <= |run|
  {
    if n == 0 then s else Try(At(s, run, n - 1), run[n - 1])
  }
}
