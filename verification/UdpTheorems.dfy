/** The promises of the UDP session protocol, over every run, and the one the code does not
    keep. */
module UdpTheorems {
  import opened Common
  import opened UdpProxy
  import opened UdpInvariants
  import opened UdpRuns

  /** A key has at most one session, two keys never share one, and a session has one owner. */
  lemma OneSessionPerKey(conns: int, max: nat, run: seq<Step>, n: nat)
    requires n <= |run|
    ensures var s := At(Start(conns, max), run, n);
      && (forall k, l | k in s.addrs && l in s.addrs && s.addrs[k] == s.addrs[l] :: k == l)
      && (forall t, u | 0 <= t < |s.threads| && 0 <= u < |s.threads| && Owning(s.threads[t]) && Owning(s.threads[u])
                        && s.threads[t].id == s.threads[u].id :: t == u)
  {
    RunInv(conns, max, run, n);
    var s := At(Start(conns, max), run, n);
    forall t, u | 0 <= t < |s.threads| && 0 <= u < |s.threads| && Owning(s.threads[t]) && Owning(s.threads[u])
                  && s.threads[t].id == s.threads[u].id
      ensures t == u
    {
      assert ThreadOk(s, t) && ThreadOk(s, u);
    }
  }

  /** `ready` is closed at most once, and is still open only while the owner builds the session. */
  lemma ReadyClosedOnce(conns: int, max: nat, run: seq<Step>, n: nat, id: nat)
    requires n <= |run| && id < |At(Start(conns, max), run, n).sessions|
    ensures var s := At(Start(conns, max), run, n);
      var x := s.sessions[id];
      && x.closes <= 1 && x.owner < |s.threads|
      && (x.closes == 0 <==> Building(s.threads[x.owner]) && s.threads[x.owner].id == id)
  {
    RunSession(conns, max, run, n, id);
  }

  /** How many steps of its own an owner is away from closing `ready`. */
  function Steps(pc: Pc): nat {
    match pc
    case Flow(_) => 5
    case Limit(_) => 4
    case Charge(_) => 3
    case Build(_) => 2
    case Ready(_) => 1
    case FailClose(_, _) => 1
    case _ => 0
  }

  /** While anybody waits for a session, its owner can move whatever the outcome. */
  lemma OwnerCanMove(conns: int, max: nat, run: seq<Step>, n: nat, w: nat, ok: bool)
    requires n <= |run|
    requires var s := At(Start(conns, max), run, n);
             w < |s.threads| && s.threads[w].Wait? && !Closed(s, s.threads[w].id)
    ensures var s := At(Start(conns, max), run, n);
      var id := s.threads[w].id;
      id < |s.sessions| && Enabled(s, Go(s.sessions[id].owner, ok)) && Steps(s.threads[s.sessions[id].owner]) > 0
  {
    var s := At(Start(conns, max), run, n);
    RunThread(conns, max, run, n, w);
    RunSession(conns, max, run, n, s.threads[w].id);
    OwnerMoves(s, s.threads[w].id, ok);
  }

  /** Each move of the owner takes it nearer to closing `ready`, and the last one closes it. */
  lemma OwnerMoves(s: State, id: nat, ok: bool)
    requires id < |s.sessions| && SessionOk(s, id) && s.sessions[id].closes == 0
    ensures var o := s.sessions[id].owner;
      && Enabled(s, Go(o, ok)) && Steps(s.threads[o]) > 0
      && var u := Do(s, Go(o, ok));
         && o < |u.threads| && Steps(u.threads[o]) < Steps(s.threads[o])
         && (Steps(u.threads[o]) == 0 <==> Closed(u, id))
  {
  }

  /** The moves of thread `t` from step `n` to step `e`. */
  function MovesOf(s: State, run: seq<Step>, n: nat, e: nat, t: nat): nat
    requires n <= e <= |run|
  {
    if n == e then 0 else MovesOf(s, run, n, e - 1, t) + (if Moves(s, run, e - 1, t) then 1 else 0)
  }

  /** A step of somebody else leaves the owner where it is, and no step opens a closed session. */
  lemma OthersLeaveIt(s: State, a: Step, id: nat)
    requires Enabled(s, a) && id < |s.sessions| && s.sessions[id].owner < |s.threads|
    ensures var u, o := Do(s, a), s.sessions[id].owner;
      && id < |u.sessions| && u.sessions[id].owner == o && o < |u.threads|
      && (!(a.Go? && a.t == o) ==> u.threads[o] == s.threads[o])
      && (Closed(s, id) ==> Closed(u, id))
  {
    if a.Go? {
      GoFrame(s, a.t, a.ok);
      GoSessions(s, a.t, a.ok);
      if HasId(s.threads[a.t]) && s.threads[a.t].id < |s.sessions| { GoOwn(s, a.t, a.ok); }
    }
  }

  /** An open session's owner has at most as many moves left as it had, less those it has made. */
  lemma {:induction false} OwnerGetsNearer(conns: int, max: nat, run: seq<Step>, n: nat, e: nat, id: nat)
    requires n <= e <= |run| && id < |At(Start(conns, max), run, n).sessions|
    ensures var s := Start(conns, max);
      var o := At(s, run, n).sessions[id].owner;
      && id < |At(s, run, e).sessions| && At(s, run, e).sessions[id].owner == o
      && o < |At(s, run, n).threads| && o < |At(s, run, e).threads|
      && (Closed(At(s, run, e), id)
          || Steps(At(s, run, e).threads[o]) + MovesOf(s, run, n, e, o) <= Steps(At(s, run, n).threads[o]))
    decreases e
  {
    var s := Start(conns, max);
    if n == e {
      RunSession(conns, max, run, n, id);
    } else {
      OwnerGetsNearer(conns, max, run, n, e - 1, id);
      RunSession(conns, max, run, e - 1, id);
      NearerStep(At(s, run, e - 1), run[e - 1], id);
    }
  }

  lemma NearerStep(s: State, a: Step, id: nat)
    requires id < |s.sessions| && SessionOk(s, id)
    ensures var u, o := Try(s, a), s.sessions[id].owner;
      && id < |u.sessions| && u.sessions[id].owner == o && o < |s.threads| && o < |u.threads|
      && (Closed(s, id) ==> Closed(u, id))
      && (!Closed(s, id) && !Closed(u, id) ==>
            Steps(u.threads[o]) + (if Enabled(s, a) && a.Go? && a.t == o then 1 else 0) <= Steps(s.threads[o]))
  {
    if Enabled(s, a) {
      OthersLeaveIt(s, a, id);
      if a.Go? && a.t == s.sessions[id].owner && !Closed(s, id) { OwnerMoves(s, id, a.ok); }
    }
  }

  lemma OwnerCloses(conns: int, max: nat, run: seq<Step>, n: nat, e: nat, id: nat)
    requires n <= e <= |run| && id < |At(Start(conns, max), run, n).sessions|
    ensures var s := At(Start(conns, max), run, n);
      var o := s.sessions[id].owner;
      o < |s.threads|
      && (MovesOf(Start(conns, max), run, n, e, o) >= Steps(s.threads[o]) ==> Closed(At(Start(conns, max), run, e), id))
  {
    OwnerGetsNearer(conns, max, run, n, e, id);
    OpenMeansSteps(conns, max, run, e, id);
  }

  /** Waiters are released: once the owner of the session has made as many moves as it was away
      from closing `ready`, at most five, `ready` is closed, whatever the others do. */
  lemma WaitersAreReleased(conns: int, max: nat, run: seq<Step>, n: nat, e: nat, w: nat)
    requires n <= e <= |run|
    requires var s := At(Start(conns, max), run, n); w < |s.threads| && s.threads[w].Wait?
    ensures var s := At(Start(conns, max), run, n);
      var id := s.threads[w].id;
      id < |s.sessions| &&
      var o := s.sessions[id].owner;
      && o < |s.threads| && Steps(s.threads[o]) <= 5
      && (MovesOf(Start(conns, max), run, n, e, o) >= Steps(s.threads[o]) ==> Closed(At(Start(conns, max), run, e), id))
  {
    RunThread(conns, max, run, n, w);
    OwnerCloses(conns, max, run, n, e, At(Start(conns, max), run, n).threads[w].id);
  }

  lemma OpenMeansSteps(conns: int, max: nat, run: seq<Step>, e: nat, id: nat)
    requires e <= |run| && id < |At(Start(conns, max), run, e).sessions|
    ensures var u := At(Start(conns, max), run, e);
      u.sessions[id].owner < |u.threads| && (!Closed(u, id) ==> Steps(u.threads[u.sessions[id].owner]) > 0)
  {
    RunSession(conns, max, run, e, id);
    OpenOwner(At(Start(conns, max), run, e), id);
  }

  lemma OpenOwner(s: State, id: nat)
    requires id < |s.sessions| && SessionOk(s, id)
    ensures s.sessions[id].owner < |s.threads| && (!Closed(s, id) ==> Steps(s.threads[s.sessions[id].owner]) > 0)
  {
  }

  /** Data is only ever written to a target that is there, of a session whose `ready` is closed
      and that did not fail. */
  lemma WritesHaveATarget(conns: int, max: nat, run: seq<Step>, n: nat, t: nat)
    requires n <= |run|
    requires var s := At(Start(conns, max), run, n); t < |s.threads| && s.threads[t].Write?
    ensures var s := At(Start(conns, max), run, n);
      var id := s.threads[t].id;
      HasTarget(s, id) && Closed(s, id) && !s.sessions[id].err
  {
    RunThread(conns, max, run, n, t);
  }

  /** The counter is what others made it plus the owners that passed the limit check and have
      not returned. */
  lemma QuotaIsExact(conns: int, max: nat, run: seq<Step>, n: nat)
    requires n <= |run|
    ensures var s := At(Start(conns, max), run, n); s.conns == s.others + |ChargedThreads(s)|
  {
    RunInv(conns, max, run, n);
  }
}
