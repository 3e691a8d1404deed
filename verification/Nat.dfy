/** The address translator of a client and its connection tracking (internal/client/nat.go). */
module Nat {
  import opened Common
  import opened Octets
  import opened Checksum
  import opened Packet
  import opened Rewrite
  import Forward

  const IDLE: int := 120_000_000_000 // two minutes, in nanoseconds

  datatype Flow = Flow(proto: byte, srcIp: Quad, srcPort: Word, dstIp: Quad, dstPort: Word)
  datatype Target = Target(ip: Quad, port: Word)
  datatype Entry = Entry(target: Target, seen: int)

  datatype Table = Table(self: Quad, rules: map<Word, Target>,
                         fwd: map<Flow, Entry>, rev: map<Flow, Word>, revSeen: map<Flow, int>)

  // ----- Rules -----

  function TargetOf(r: Forward.Rule): Target {
    Target(Quad(Split(r.targetIp / 0x1_0000), Split(r.targetIp % 0x1_0000)), Split(r.targetPort))
  }

  /** A later rule for a port replaces an earlier one. */
  function RuleTable(rs: seq<Forward.Rule>): map<Word, Target> {
    if rs == [] then map[]
    else RuleTable(rs[..|rs| - 1])[Split(rs[|rs| - 1].vport) := TargetOf(rs[|rs| - 1])]
  }

  lemma SplitInjective(m: uint16, n: uint16)
    requires Split(m) == Split(n)
    ensures m == n
  {
    assert Value(Split(m)) == m && Value(Split(n)) == n;
  }

  /** The table has one entry for each rule of the rule map. */
  lemma {:induction false} RuleTableIsRuleMap(rs: seq<Forward.Rule>, p: uint16)
    ensures Split(p) in RuleTable(rs) <==> p in Forward.RuleMap(rs)
    ensures p in Forward.RuleMap(rs) ==> RuleTable(rs)[Split(p)] == TargetOf(Forward.RuleMap(rs)[p])
    decreases |rs|
  {
    if rs != [] {
      RuleTableIsRuleMap(rs[..|rs| - 1], p);
      if Split(rs[|rs| - 1].vport) == Split(p) { SplitInjective(rs[|rs| - 1].vport, p); }
    }
  }

  // ----- What the operations compute -----

  /** A complete TCP or UDP packet for this host, to a port that has a rule. */
  predicate DnatHit(self: Quad, rules: map<Word, Target>, s: seq<byte>) {
    Parse(s).Some? &&
    var p := Parse(s).value;
    p.HasPorts() && p.dst == self && Port(s, p, 2) in rules && p.TransportOk()
  }

  /** The packet's flow. */
  function FlowOf(s: seq<byte>): Flow
    requires Parse(s).Some?
  {
    var p := Parse(s).value;
    Flow(p.proto, p.src, Port(s, p, 0), p.dst, Port(s, p, 2))
  }

  /** The flow of the reply to a packet once it has been sent on to `t`. */
  function ReplyTo(s: seq<byte>, t: Target): Flow
    requires Parse(s).Some?
  {
    Flow(FlowOf(s).proto, t.ip, t.port, FlowOf(s).srcIp, FlowOf(s).srcPort)
  }

  function Track(n: Table, s: seq<byte>, now: int): Table
    requires DnatHit(n.self, n.rules, s)
  {
    var t := n.rules[FlowOf(s).dstPort];
    n.(fwd := n.fwd[FlowOf(s) := Entry(t, now)], rev := n.rev[ReplyTo(s, t) := FlowOf(s).dstPort],
       revSeen := n.revSeen[ReplyTo(s, t) := now])
  }

  /** The packet sent on to `t`. */
  function SentOn(s: seq<byte>, t: Target): seq<byte>
    requires Parse(s).Some? && Parse(s).value.HasPorts() && Parse(s).value.TransportOk()
  {
    Rewritten(RFC, Placed(s, Parse(s).value, 16, t.ip, 2, t.port))
  }

  function Dnat(n: Table, s: seq<byte>, now: int): (Table, seq<byte>, bool) {
    if DnatHit(n.self, n.rules, s) then (Track(n, s, now), SentOn(s, n.rules[FlowOf(s).dstPort]), true)
    else (n, s, false)
  }

  /** A complete TCP or UDP packet of a flow under which replies are expected. */
  predicate SnatHit(rev: map<Flow, Word>, s: seq<byte>) {
    Parse(s).Some? && Parse(s).value.HasPorts() && FlowOf(s) in rev && Parse(s).value.TransportOk()
  }

  /** The packet sent back as from `self`. */
  function SentBack(s: seq<byte>, self: Quad, port: Word): seq<byte>
    requires Parse(s).Some? && Parse(s).value.HasPorts() && Parse(s).value.TransportOk()
  {
    Rewritten(RFC, Placed(s, Parse(s).value, 12, self, 0, port))
  }

  function Snat(n: Table, s: seq<byte>, now: int): (Table, seq<byte>, bool) {
    if SnatHit(n.rev, s) then (n.(revSeen := n.revSeen[FlowOf(s) := now]), SentBack(s, n.self, n.rev[FlowOf(s)]), true)
    else (n, s, false)
  }

  function WithRules(n: Table, rs: seq<Forward.Rule>): Table { n.(rules := RuleTable(rs)) }

  /** One round of `cleanLoop`. */
  function Clean(n: Table, now: int): Table {
    n.(fwd := n.fwd - (set k | k in n.fwd && now - n.fwd[k].seen > IDLE),
       rev := n.rev - (set k | k in n.revSeen && now - n.revSeen[k] > IDLE),
       revSeen := n.revSeen - (set k | k in n.revSeen && now - n.revSeen[k] > IDLE))
  }

  lemma MinusOne<V>(m: map<Flow, V>, gone: set<Flow>, k: Flow)
    ensures (m - gone) - {k} == m - (gone + {k})
  {
  }

  // ----- In place -----

  class Nat {
    const self: Quad
    var rules: map<Word, Target>
    var fwd: map<Flow, Entry>
    var rev: map<Flow, Word>
    var revSeen: map<Flow, int>

    function Model(): Table
      reads this
    {
      Table(self, rules, fwd, rev, revSeen)
    }

    constructor (self: Quad, rs: seq<Forward.Rule>)
      ensures Model() == Table(self, RuleTable(rs), map[], map[], map[])
    {
      this.self := self;
      fwd, rev, revSeen := map[], map[], map[];
      rules := map[];
      new;
      SetRules(rs);
    }

    method SetRules(rs: seq<Forward.Rule>)
      modifies this`rules
      ensures Model() == WithRules(old(Model()), rs)
    {
      var next: map<Word, Target> := map[];
      for i := 0 to |rs|
        invariant next == RuleTable(rs[..i])
      {
        assert rs[..i + 1][..i] == rs[..i];
        next := next[Split(rs[i].vport) := TargetOf(rs[i])];
      }
      assert rs[..|rs|] == rs;
      rules := next;
    }

    method DNAT(buf: array<byte>, now: int) returns (ok: bool)
      modifies this, buf
      ensures (Model(), buf[..], ok) == Dnat(old(Model()), old(buf[..]), now)
    {
      ghost var s := buf[..];
      var r := Parse(buf[..]);
      if r.None? || !r.value.HasPorts() { return false; }
      var p := r.value;
      if p.dst != self { return false; }
      var dstPort := Port(buf[..], p, 2);
      if dstPort !in rules { return false; }
      if !p.TransportOk() { return false; }
      var t := rules[dstPort];
      var srcPort := Port(buf[..], p, 0);
      var rk := Flow(p.proto, t.ip, t.port, p.src, srcPort);
      fwd := fwd[Flow(p.proto, p.src, srcPort, self, dstPort) := Entry(t, now)];
      rev := rev[rk := dstPort];
      revSeen := revSeen[rk := now];
      SetQuad(buf, 16, t.ip);
      SetWord(buf, p.ihl + 2, t.port);
      assert buf[..] == Placed(s, p, 16, t.ip, 2, t.port);
      RewriteChecksums(buf);
      ok := true;
    }

    method SNAT(buf: array<byte>, now: int) returns (ok: bool)
      modifies this`revSeen, buf
      ensures (Model(), buf[..], ok) == Snat(old(Model()), old(buf[..]), now)
    {
      ghost var s := buf[..];
      var r := Parse(buf[..]);
      if r.None? || !r.value.HasPorts() { return false; }
      var p := r.value;
      var rk := Flow(p.proto, p.src, Port(buf[..], p, 0), p.dst, Port(buf[..], p, 2));
      if rk !in rev { return false; }
      if !p.TransportOk() { return false; }
      var vport := rev[rk];
      revSeen := revSeen[rk := now];
      SetQuad(buf, 12, self);
      SetWord(buf, p.ihl, vport);
      assert buf[..] == Placed(s, p, 12, self, 0, vport);
      RewriteChecksums(buf);
      ok := true;
    }

    /** The forward entries are visited in an arbitrary order. */
    method CleanFwd(now: int)
      modifies this`fwd
      ensures fwd == old(fwd) - (set k | k in old(fwd) && now - old(fwd)[k].seen > IDLE)
    {
      ghost var m := fwd;
      var todo := fwd.Keys;
      while todo != {}
        invariant todo <= fwd.Keys
        invariant fwd == m - (set k | k in m && k !in todo && now - m[k].seen > IDLE)
        decreases |todo|
      {
        var k :| k in todo;
        if now - fwd[k].seen > IDLE { fwd := fwd - {k}; }
        todo := todo - {k};
      }
    }

    method CleanRev(now: int)
      modifies this`rev, this`revSeen
      ensures rev == old(rev) - (set k | k in old(revSeen) && now - old(revSeen)[k] > IDLE)
      ensures revSeen == old(revSeen) - (set k | k in old(revSeen) && now - old(revSeen)[k] > IDLE)
    {
      ghost var r, m, gone: set<Flow> := rev, revSeen, {};
      var todo := revSeen.Keys;
      while todo != {}
        invariant todo <= m.Keys && todo !! gone
        invariant forall k | k in m && k !in todo :: k in gone <==> now - m[k] > IDLE
        invariant gone <= m.Keys && revSeen == m - gone && rev == r - gone
        decreases |todo|
      {
        var k :| k in todo;
        if now - revSeen[k] > IDLE {
          rev := rev - {k};
          revSeen := revSeen - {k};
          MinusOne(r, gone, k);
          MinusOne(m, gone, k);
          gone := gone + {k};
        }
        todo := todo - {k};
      }
      assert gone == set k | k in m && now - m[k] > IDLE;
    }

    method CleanOnce(now: int)
      modifies this`fwd, this`rev, this`revSeen
      ensures Model() == Clean(old(Model()), now)
    {
      CleanFwd(now);
      CleanRev(now);
    }
  }
}
