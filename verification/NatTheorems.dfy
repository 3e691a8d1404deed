/** The connection tracking against the history of the packets. */
module NatTheorems {
  import opened Common
  import opened Octets
  import opened Checksum
  import opened Packet
  import opened Rewrite
  import opened Nat
  import Forward

  // ----- Packets -----

  /** A packet sent on goes from the same client and port to the target and its port; its
      header sum verifies and so does the segment's, except for UDP without a checksum. */
  lemma SentOnIsRight(s: seq<byte>, t: Target)
    requires Parse(s).Some? && Parse(s).value.HasPorts() && Parse(s).value.TransportOk()
    ensures var p, u := Parse(s).value, SentOn(s, t);
      var q := p.(dst := t.ip);
      && Parse(u) == Some(q) && FlowOf(u) == FlowOf(s).(dstIp := t.ip, dstPort := t.port)
      && RECEIVER.header(u[..p.ihl])
      && (p.proto == TCP || Get2(s, p.ihl + 6) != ZERO ==> RECEIVER.segment(q, u[p.ihl..p.total]))
  {
    RfcSound();
    RedirectedSums(RFC, RECEIVER, s, 16, t.ip, 2, t.port);
    RedirectedPorts(RFC, s, 16, t.ip, 2, t.port);
  }

  lemma MovedFlow(s: seq<byte>, u: seq<byte>, self: Quad, port: Word)
    requires Parse(s).Some? && Parse(u) == Some(Parse(s).value.(src := self))
    requires Port(u, Parse(u).value, 0) == port && Port(u, Parse(u).value, 2) == Port(s, Parse(s).value, 2)
    ensures FlowOf(u) == FlowOf(s).(srcIp := self, srcPort := port)
  {
  }

  lemma SentBackFlow(s: seq<byte>, self: Quad, port: Word)
    requires Parse(s).Some? && Parse(s).value.HasPorts() && Parse(s).value.TransportOk()
    ensures var u := SentBack(s, self, port);
      && Parse(u) == Some(Parse(s).value.(src := self)) && FlowOf(u) == FlowOf(s).(srcIp := self, srcPort := port)
  {
    RedirectedParse(RFC, s, 12, self, 0, port);
    RedirectedPorts(RFC, s, 12, self, 0, port);
    MovedFlow(s, SentBack(s, self, port), self, port);
  }

  lemma SentBackIsRight(s: seq<byte>, self: Quad, port: Word)
    requires Parse(s).Some? && Parse(s).value.HasPorts() && Parse(s).value.TransportOk()
    ensures var p, u := Parse(s).value, SentBack(s, self, port);
      var q := p.(src := self);
      && Parse(u) == Some(q) && FlowOf(u) == FlowOf(s).(srcIp := self, srcPort := port)
      && RECEIVER.header(u[..p.ihl])
      && (p.proto == TCP || Get2(s, p.ihl + 6) != ZERO ==> RECEIVER.segment(q, u[p.ihl..p.total]))
  {
    RfcSound();
    RedirectedSums(RFC, RECEIVER, s, 12, self, 0, port);
    SentBackFlow(s, self, port);
  }

  /** Only the destination address, the destination port and the two sums of a packet sent on
      change; a packet that is not sent on is left alone, and so is the table. */
  lemma DnatTouches(n: Table, s: seq<byte>, now: int, i: nat)
    requires i < |s|
    ensures var (m, t, ok) := Dnat(n, s, now);
      && |t| == |s| && (!ok ==> m == n && t == s)
      && (t[i] != s[i] ==> ok && Touched(Parse(s).value, 16, 2, i))
  {
    if DnatHit(n.self, n.rules, s) {
      var t := n.rules[FlowOf(s).dstPort];
      RedirectedBytes(RFC, s, 16, t.ip, 2, t.port);
    }
  }

  lemma SnatTouches(n: Table, s: seq<byte>, now: int, i: nat)
    requires i < |s|
    ensures var (m, t, ok) := Snat(n, s, now);
      && |t| == |s| && (!ok ==> m == n && t == s)
      && (t[i] != s[i] ==> ok && Touched(Parse(s).value, 12, 0, i))
  {
    if SnatHit(n.rev, s) {
      RedirectedBytes(RFC, s, 12, n.self, 0, n.rev[FlowOf(s)]);
    }
  }

  // ----- Histories -----

  datatype Event =
    | Request(s: seq<byte>, now: int)
    | Reply(s: seq<byte>, now: int)
    | Rules(rs: seq<Forward.Rule>)
    | Cleanup(now: int)

  function Handle(n: Table, e: Event): Table {
    match e
    case Request(s, now) => Dnat(n, s, now).0
    case Reply(s, now) => Snat(n, s, now).0
    case Rules(rs) => WithRules(n, rs)
    case Cleanup(now) => Clean(n, now)
  }

  /** The rules in force and the table after the first `n` events. */
  function RulesAt(rs: seq<Forward.Rule>, run: seq<Event>, n: nat): map<Word, Target>
    requires n <= |run|
  {
    if n == 0 then RuleTable(rs) else if run[n - 1].Rules? then RuleTable(run[n - 1].rs) else RulesAt(rs, run, n - 1)
  }

  function TableAt(self: Quad, rs: seq<Forward.Rule>, run: seq<Event>, n: nat): Table
    requires n <= |run|
  {
    if n == 0 then Table(self, RuleTable(rs), map[], map[], map[])
    else Handle(TableAt(self, rs, run, n - 1), run[n - 1])
  }

  /** Event `j` sends a packet on whose replies come under `k`. */
  predicate Hit(self: Quad, rs: seq<Forward.Rule>, run: seq<Event>, j: nat, k: Flow)
    requires j < |run|
  {
    run[j].Request? && DnatHit(self, RulesAt(rs, run, j), run[j].s)
    && k == ReplyTo(run[j].s, RulesAt(rs, run, j)[FlowOf(run[j].s).dstPort])
  }

  /** The port that the packet of event `j` was for. */
  function HitPort(run: seq<Event>, j: nat): Word
    requires j < |run| && run[j].Request? && Parse(run[j].s).Some?
  {
    FlowOf(run[j].s).dstPort
  }

  predicate IsReply(s: seq<byte>, k: Flow) {
    Parse(s).Some? && Parse(s).value.HasPorts() && FlowOf(s) == k && Parse(s).value.TransportOk()
  }

  /** Event `j` is a complete reply under `k`. */
  predicate Answer(run: seq<Event>, j: nat, k: Flow)
    requires j < |run|
  {
    run[j].Reply? && IsReply(run[j].s, k)
  }

  predicate Touch(self: Quad, rs: seq<Forward.Rule>, run: seq<Event>, j: nat, k: Flow)
    requires j < |run|
  {
    Hit(self, rs, run, j, k) || Answer(run, j, k)
  }

  /** The last of the first `n` events that sent a packet on under `k`. */
  function LastHit(self: Quad, rs: seq<Forward.Rule>, run: seq<Event>, n: nat, k: Flow): (r: Option<nat>)
    requires n <= |run|
    ensures r.Some? ==> r.value < n && Hit(self, rs, run, r.value, k)
    ensures forall j | 0 <= j < n && Hit(self, rs, run, j, k) :: r.Some? && j <= r.value
  {
    if n == 0 then None
    else if Hit(self, rs, run, n - 1, k) then Some(n - 1)
    else LastHit(self, rs, run, n - 1, k)
  }

  /** When the flow was last touched by one of the first `n` events. */
  function SeenAt(self: Quad, rs: seq<Forward.Rule>, run: seq<Event>, n: nat, k: Flow): int
    requires n <= |run|
  {
    if n == 0 then 0
    else if Touch(self, rs, run, n - 1, k) then run[n - 1].now
    else SeenAt(self, rs, run, n - 1, k)
  }

  /** No cleanup from event `i` on found the flow idle for more than two minutes. */
  predicate NeverIdle(self: Quad, rs: seq<Forward.Rule>, run: seq<Event>, i: nat, n: nat, k: Flow)
    requires n <= |run|
  {
    forall c | i < c < n && run[c].Cleanup? :: run[c].now - SeenAt(self, rs, run, c, k) <= IDLE
  }

  predicate Live(self: Quad, rs: seq<Forward.Rule>, run: seq<Event>, n: nat, k: Flow)
    requires n <= |run|
  {
    var i := LastHit(self, rs, run, n, k);
    i.Some? && NeverIdle(self, rs, run, i.value, n, k)
  }

  lemma {:induction false} TableAtBasics(self: Quad, rs: seq<Forward.Rule>, run: seq<Event>, n: nat)
    requires n <= |run|
    ensures TableAt(self, rs, run, n).self == self && TableAt(self, rs, run, n).rules == RulesAt(rs, run, n)
    ensures TableAt(self, rs, run, n).rev.Keys == TableAt(self, rs, run, n).revSeen.Keys
  {
    if n > 0 {
      TableAtBasics(self, rs, run, n - 1);
      HandleBasics(TableAt(self, rs, run, n - 1), run[n - 1]);
    }
  }

  lemma HandleBasics(t: Table, e: Event)
    requires t.rev.Keys == t.revSeen.Keys
    ensures Handle(t, e).self == t.self && (Handle(t, e).rules == if e.Rules? then RuleTable(e.rs) else t.rules)
    ensures Handle(t, e).rev.Keys == Handle(t, e).revSeen.Keys
  {
    if e.Reply? && SnatHit(t.rev, e.s) { assert FlowOf(e.s) in t.revSeen.Keys; }
  }

  /** What one event does to one reverse entry. */
  lemma HandleEntry(t: Table, e: Event, k: Flow)
    requires t.rev.Keys == t.revSeen.Keys
    ensures var u := Handle(t, e);
      if e.Request? && DnatHit(t.self, t.rules, e.s) && k == ReplyTo(e.s, t.rules[FlowOf(e.s).dstPort])
      then k in u.rev && k in u.revSeen && u.rev[k] == FlowOf(e.s).dstPort && u.revSeen[k] == e.now
      else
        && (k in u.rev <==> k in t.rev && !(e.Cleanup? && e.now - t.revSeen[k] > IDLE))
        && (k in u.rev ==>
              (&& k in u.revSeen && k in t.revSeen && u.rev[k] == t.rev[k]
               && u.revSeen[k] == if e.Reply? && IsReply(e.s, k) then e.now else t.revSeen[k]))
  {
    assert k in t.rev.Keys <==> k in t.revSeen.Keys;
    HandleBasics(t, e);
    assert k in Handle(t, e).rev.Keys <==> k in Handle(t, e).revSeen.Keys;
  }

  /** After any history the reverse table holds exactly the flows that are live, each with the
      port of the last packet sent on and the time of the last packet of the flow. */
  lemma {:induction false} ReverseTableIsHistory(self: Quad, rs: seq<Forward.Rule>, run: seq<Event>, n: nat, k: Flow)
    requires n <= |run|
    ensures var t := TableAt(self, rs, run, n);
      && (k in t.rev <==> Live(self, rs, run, n, k))
      && (k in t.revSeen <==> Live(self, rs, run, n, k))
      && (k in t.rev ==> t.rev[k] == HitPort(run, LastHit(self, rs, run, n, k).value)
                         && t.revSeen[k] == SeenAt(self, rs, run, n, k))
  {
    TableAtBasics(self, rs, run, n);
    assert k in TableAt(self, rs, run, n).rev.Keys <==> k in TableAt(self, rs, run, n).revSeen.Keys;
    if n > 0 {
      ReverseTableIsHistory(self, rs, run, n - 1, k);
      TableAtBasics(self, rs, run, n - 1);
      HandleEntry(TableAt(self, rs, run, n - 1), run[n - 1], k);
      LiveStep(self, rs, run, n - 1, k);
    }
  }

  lemma {:induction false} LiveStep(self: Quad, rs: seq<Forward.Rule>, run: seq<Event>, n: nat, k: Flow)
    requires n < |run|
    ensures Live(self, rs, run, n + 1, k) <==>
      Hit(self, rs, run, n, k)
      || (Live(self, rs, run, n, k) && !(run[n].Cleanup? && run[n].now - SeenAt(self, rs, run, n, k) > IDLE))
  {
  }

  lemma ReverseHolds(self: Quad, rs: seq<Forward.Rule>, run: seq<Event>, i: nat, k: Flow)
    requires i < |run| && Hit(self, rs, run, i, k)
    requires NeverIdle(self, rs, run, i, |run|, k)
    requires forall j | i < j < |run| && Hit(self, rs, run, j, k) :: HitPort(run, j) == HitPort(run, i)
    ensures var t := TableAt(self, rs, run, |run|);
      k in t.rev && t.rev[k] == HitPort(run, i) && t.self == self
  {
    ReverseTableIsHistory(self, rs, run, |run|, k);
    TableAtBasics(self, rs, run, |run|);
  }

  lemma HitReply(self: Quad, rs: seq<Forward.Rule>, run: seq<Event>, i: nat, k: Flow)
    requires i < |run| && Hit(self, rs, run, i, k)
    ensures var request := FlowOf(run[i].s);
      k.proto == request.proto && request.dstIp == self && request.dstPort == HitPort(run, i)
      && k.dstIp == request.srcIp && k.dstPort == request.srcPort
  {
  }

  /** The reply to a packet that was sent on reaches the client as from this host and the port
      the client had used, provided the flow was never found idle since, and the same client
      port did not reach the same target by another port.  Changes of the rules do not matter. */
  lemma RepliesReachTheClient(self: Quad, rs: seq<Forward.Rule>, run: seq<Event>, i: nat, k: Flow, reply: seq<byte>,
                              now: int)
    requires i < |run| && Hit(self, rs, run, i, k)
    requires NeverIdle(self, rs, run, i, |run|, k)
    requires forall j | i < j < |run| && Hit(self, rs, run, j, k) :: HitPort(run, j) == HitPort(run, i)
    requires IsReply(reply, k)
    ensures var (_, t, ok) := Snat(TableAt(self, rs, run, |run|), reply, now);
      var request := FlowOf(run[i].s);
      && ok && Parse(t).Some?
      && FlowOf(t) == Flow(request.proto, request.dstIp, request.dstPort, request.srcIp, request.srcPort)
  {
    ReverseHolds(self, rs, run, i, k);
    HitReply(self, rs, run, i, k);
    SentBackFlow(reply, self, HitPort(run, i));
  }

  // ----- A UDP packet sent on without a checksum -----

  /** From 10.0.0.3, port 13301, to port 8080 of 10.0.0.2, with a checksum. */
  const REQUEST: seq<byte> :=
    [0x45, 0, 0, 28, 0, 0, 0, 0, 64, 17, 0, 0, 10, 0, 0, 3, 10, 0, 0, 2, 0x33, 0xF5, 0x1F, 0x90, 0, 8, 0x12, 0x34]

  const SELF: Quad := Quad(Word(10, 0), Word(0, 2))
  const DNS: Target := Target(Quad(Word(192, 168), Word(1, 9)), Word(0, 53))

  lemma RequestHits()
    ensures Parse(REQUEST) == Some(Pkt(UDP, Quad(Word(10, 0), Word(0, 3)), SELF, 20, 28))
    ensures DnatHit(SELF, map[Word(0x1F, 0x90) := DNS], REQUEST) && Get2(REQUEST, 26) == Word(0x12, 0x34)
  {
  }

  /** The packet readdressed, before its sums are rewritten. */
  lemma RequestPlaced(b: seq<byte>)
    requires b == Placed(REQUEST, Pkt(UDP, Quad(Word(10, 0), Word(0, 3)), SELF, 20, 28), 16, DNS.ip, 2, DNS.port)
    ensures Parse(b) == Some(Pkt(UDP, Quad(Word(10, 0), Word(0, 3)), DNS.ip, 20, 28))
    ensures b[20..28] == [0x33, 0xF5, 0, 53, 0, 8, 0x12, 0x34]
  {
  }

  lemma {:induction false} PlacedSum(a: seq<byte>, seg: seq<byte>)
    requires a == [10, 0, 0, 3, 192, 168, 1, 9, 0, 17, 0, 8] && seg == [0x33, 0xF5, 0, 53, 0, 8, 0x12, 0x34]
    ensures Sum(a + seg) == 0xFFFF + 0x1234
  {
    assert a == a[..8] + a[8..];
    SumAppend(a, seg);
    SumAppend(a[..8], a[8..]);
    SumOfFour(a[..8]);
    SumOfTwo(a[8..]);
    SumOfFour(seg);
  }

  /** A packet that comes with a checksum is sent on with a zero field. */
  lemma {:induction false} SentOnWithoutChecksum()
    ensures DnatHit(SELF, map[Word(0x1F, 0x90) := DNS], REQUEST) && Get2(REQUEST, 26) != ZERO
    ensures |SentOn(REQUEST, DNS)| == 28 && Get2(SentOn(REQUEST, DNS), 26) == ZERO
  {
    RequestHits();
    var p := Pkt(UDP, Quad(Word(10, 0), Word(0, 3)), SELF, 20, 28);
    var b := Placed(REQUEST, p, 16, DNS.ip, 2, DNS.port);
    RequestPlaced(b);
    PlacedOutside(b);
    UdpFieldZero(b);
  }

  lemma {:induction false} PlacedOutside(b: seq<byte>)
    requires |b| == 28 && b[20..28] == [0x33, 0xF5, 0, 53, 0, 8, 0x12, 0x34]
    ensures Outside(Pseudo(Pkt(UDP, Quad(Word(10, 0), Word(0, 3)), DNS.ip, 20, 28), 8), b[20..28]) == 0xFFFF
  {
    SplitEight();
    PlacedSum(Pseudo(Pkt(UDP, Quad(Word(10, 0), Word(0, 3)), DNS.ip, 20, 28), 8), b[20..28]);
  }

  lemma SplitEight()
    ensures Split(8) == Word(0, 8)
  {
    var w := Split(8);
    assert w.hi * 0x100 + w.lo == 8;
  }
}
