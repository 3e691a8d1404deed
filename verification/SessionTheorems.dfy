/** The promises of the server's tables, over every run from the empty server. */
module SessionTheorems {
  import opened Common
  import opened IpPool
  import opened Devices
  import opened DeviceInvariants
  import opened Sessions

  ghost predicate Registered(s: Sys, c: nat) { c in s.conns && s.conns[c].vip != 0 }

  ghost predicate Anonymous(s: Sys, c: nat) { Registered(s, c) && s.conns[c].hwid == "" }

  /** The addresses held by live connections without a device identifier. */
  ghost function AnonVips(s: Sys): set<nat> { set c | c in s.conns && Anonymous(s, c) :: s.conns[c].vip }

  /** The two session indices agree with the connections, and live names are distinct. */
  ghost predicate TablesAgree(s: Sys) {
    && (forall c | c in s.conns && s.conns[c].vip == 0 :: s.conns[c] == UNREGISTERED)
    && (forall v | v in s.devices :: Registered(s, s.devices[v]) && s.conns[s.devices[v]].vip == v)
    && (forall c | Registered(s, c) :: s.conns[c].name in s.byName && s.byName[s.conns[c].name] == c)
    && (forall n | n in s.byName :: Registered(s, s.byName[n]) && s.conns[s.byName[n]].name == n)
  }

  /** Live anonymous connections keep their own addresses. */
  ghost predicate AnonOk(s: Sys) {
    && (forall c | Anonymous(s, c) :: s.conns[c].vip in s.devices && s.devices[s.conns[c].vip] == c)
  }

  ghost predicate SysInv(s: Sys) { TablesAgree(s) && AnonOk(s) && Inv(s.book, AnonVips(s)) }

  lemma EmptyInv()
    ensures SysInv(EMPTY)
  {
    assert AnonVips(EMPTY) == {};
  }

  /** An operation on the book alone leaves the sessions, and so the anonymous addresses. */
  lemma BookOpInv(s: Sys, book: Book)
    requires SysInv(s) && Inv(book, AnonVips(s))
    ensures SysInv(s.(book := book))
  {
    var t := s.(book := book);
    assert TablesAgree(t);
    SameAnon(s, t);
  }

  lemma SameAnon(s: Sys, t: Sys)
    requires t.conns == s.conns
    ensures AnonVips(t) == AnonVips(s)
  {
  }

  lemma ConnectTables(s: Sys, c: nat)
    requires TablesAgree(s) && AnonOk(s) && c !in s.conns
    ensures var t := s.(conns := s.conns[c := UNREGISTERED]); TablesAgree(t) && AnonOk(t) && AnonVips(t) == AnonVips(s)
  {
    var t := s.(conns := s.conns[c := UNREGISTERED]);
    forall x ensures Anonymous(t, x) <==> Anonymous(s, x) {}
    assert AnonVips(t) == AnonVips(s);
  }

  lemma ConnectInv(s: Sys, c: nat)
    requires SysInv(s) && c !in s.conns
    ensures SysInv(s.(conns := s.conns[c := UNREGISTERED]))
  {
    ConnectTables(s, c);
  }

  /** `allocVIP` never hands out an address of a live anonymous connection, and hands an
      anonymous one an address nobody holds. */
  lemma AllocVipInv(b: Book, hwid: string, name: string, now: int, anon: set<nat>)
    requires Inv(b, anon)
    ensures var (c, r) := AllocVip(b, hwid, name, now);
      && (r.Some? ==> r.value != 0 && r.value !in anon)
      && Inv(c, anon + (if r.Some? && hwid == "" then {r.value} else {}))
  {
    var (c, r) := AllocVip(b, hwid, name, now);
    if hwid == "" {
      if r.Some? { assert c.pool.used == c.byVip.Keys + (anon + {r.value}); }
    } else {
      AssignInv(b, hwid, name, now, anon);
      assert anon + {} == anon;
    }
  }

  /** Enter connection `c` under its new name and address. */
  function Enter(s: Sys, c: nat, d: Conn): Sys {
    s.(conns := s.conns[c := d], devices := s.devices[d.vip := c], byName := s.byName[d.name := c])
  }

  lemma EnterTables(s: Sys, c: nat, d: Conn)
    requires TablesAgree(s) && c in s.conns && s.conns[c] == UNREGISTERED && d.name !in s.byName && d.vip != 0
    ensures TablesAgree(Enter(s, c, d))
  {
    var t := Enter(s, c, d);
    forall x | x != c ensures Registered(t, x) == Registered(s, x) {}
  }

  /** At an address no live anonymous connection has, the others keep theirs. */
  lemma EnterAnon(s: Sys, c: nat, d: Conn)
    requires AnonOk(s) && c in s.conns && s.conns[c] == UNREGISTERED && d.vip != 0 && d.vip !in AnonVips(s)
    ensures AnonOk(Enter(s, c, d)) && AnonVips(Enter(s, c, d)) == AnonVips(s) + (if d.hwid == "" then {d.vip} else {})
  {
    var t := Enter(s, c, d);
    forall x | x != c ensures Anonymous(t, x) == Anonymous(s, x) {}
    forall x | Anonymous(s, x) ensures s.conns[x].vip != d.vip { assert s.conns[x].vip in AnonVips(s); }
    forall v ensures v in AnonVips(t) <==> v in AnonVips(s) || (d.hwid == "" && v == d.vip) {
      if v in AnonVips(s) {
        var x :| x in s.conns && Anonymous(s, x) && s.conns[x].vip == v;
        assert x in t.conns && Anonymous(t, x) && t.conns[x].vip == v;
      }
      if d.hwid == "" { assert c in t.conns && Anonymous(t, c) && t.conns[c].vip == d.vip; }
    }
  }

  lemma RegisterInv(s: Sys, c: nat, name: string, hwid: string, now: int)
    requires SysInv(s) && c in s.conns && s.conns[c] == UNREGISTERED
    ensures SysInv(Register(s, c, name, hwid, now))
  {
    var anon := AnonVips(s);
    AllocVipInv(s.book, hwid, name, now, anon);
    var (book, r) := AllocVip(s.book, hwid, name, now);
    if r.None? {
      assert anon + {} == anon;
      BookOpInv(s, book);
    } else {
      var d := Conn(PickName(s.byName.Keys, name), r.value, hwid);
      EnterTables(s, c, d);
      EnterAnon(s, c, d);
      RegisteredInv(Enter(s, c, d), book);
      assert Register(s, c, name, hwid, now) == Enter(s, c, d).(book := book);
    }
  }

  lemma RegisteredInv(t: Sys, book: Book)
    requires TablesAgree(t) && AnonOk(t) && Inv(book, AnonVips(t))
    ensures SysInv(t.(book := book))
  {
    SameAnon(t, t.(book := book));
  }

  lemma RemoveTables(s: Sys, c: nat)
    requires TablesAgree(s) && AnonOk(s) && c in s.conns
    ensures var t := Remove(s, c);
      && TablesAgree(t) && AnonOk(t)
      && AnonVips(t) == (if Anonymous(s, c) then AnonVips(s) - {s.conns[c].vip} else AnonVips(s))
      && (Anonymous(s, c) ==> s.conns[c].vip !in t.devices)
  {
    var t := Remove(s, c);
    forall x ensures Registered(t, x) == (x != c && Registered(s, x)) {}
    forall x ensures Anonymous(t, x) == (x != c && Anonymous(s, x)) {}
    forall v ensures v in AnonVips(t) <==> v in AnonVips(s) && !(Anonymous(s, c) && v == s.conns[c].vip) {
      if v in AnonVips(s) {
        var x :| x in s.conns && Anonymous(s, x) && s.conns[x].vip == v;
        if x != c { assert x in t.conns && Anonymous(t, x) && t.conns[x].vip == v; }
      }
      if v in AnonVips(t) {
        var x :| x in t.conns && Anonymous(t, x) && t.conns[x].vip == v;
        assert x in s.conns && Anonymous(s, x) && s.conns[x].vip == v;
      }
    }
  }

  lemma RemoveInv(s: Sys, c: nat)
    requires SysInv(s) && c in s.conns
    ensures SysInv(Remove(s, c))
  {
    RemoveTables(s, c);
    var t, d := Remove(s, c), s.conns[c];
    if Anonymous(s, c) {
      assert d.vip in AnonVips(s);
      assert t.book.pool.used == t.book.byVip.Keys + AnonVips(t);
    }
  }

  lemma StepInv(s: Sys, op: Op)
    requires SysInv(s) && Enabled(s, op)
    ensures SysInv(Do(s, op))
  {
    var anon := AnonVips(s);
    match op
    case OpConnect(c) => ConnectInv(s, c);
    case OpRegister(c, name, hwid, now) => RegisterInv(s, c, name, hwid, now);
    case OpRemove(c) => RemoveInv(s, c);
    case OpPrune(now) =>
      PruneInv(s.book, now, anon);
      BookOpInv(s, Prune(s.book, now));
    case OpSetIP(hwid, vip) =>
      SetIPInv(s.book, hwid, vip, anon);
      BookOpInv(s, SetIP(s.book, hwid, vip).0);
    case OpSetForward(hwid, rules) =>
      SetForwardInv(s.book, hwid, rules, anon);
      BookOpInv(s, SetForward(s.book, hwid, rules).0);
    case OpHandleRegister(hwid, name, id, key) =>
      HandleRegisterInv(s.book, hwid, name, id, key, anon);
      BookOpInv(s, HandleRegister(s.book, hwid, name, id, key).0);
    case OpClear(hwid) =>
      ClearCredentialInv(s.book, hwid, anon);
      BookOpInv(s, ClearCredential(s.book, hwid).0);
    case OpBlock(hwid) =>
      BlockInv(s.book, hwid, anon);
      BookOpInv(s, Block(s.book, hwid).0);
    case OpUnblock(hwid) =>
      UnblockInv(s.book, hwid, anon);
      BookOpInv(s, Unblock(s.book, hwid).0);
  }

  lemma {:induction false} ExecInv(s: Sys, run: seq<Op>)
    requires SysInv(s) && Exec(s, run).Some?
    ensures SysInv(Exec(s, run).value)
    decreases |run|
  {
    if run != [] {
      StepInv(s, run[0]);
      ExecInv(Do(s, run[0]), run[1..]);
    }
  }

  // ----- Main results -----

  /** In every reachable state the reverse index is the inverse of the leases, no two devices
      share an address, and the pool holds exactly the leased addresses and, apart from those,
      the addresses of live anonymous connections. */
  lemma LeasesAndPoolAgree(run: seq<Op>, s: Sys)
    requires Exec(EMPTY, run) == Some(s)
    ensures forall v, h ::
              (v in s.book.byVip && s.book.byVip[v] == h) <==> (h in s.book.recs && s.book.recs[h].vip == v != 0)
    ensures forall g, h | g in s.book.recs && h in s.book.recs && s.book.recs[g].vip == s.book.recs[h].vip != 0 ::
              g == h
    ensures forall v | v in s.book.byVip :: NET_ADDR + 1 < v < NET_ADDR + HOST_SPAN - 1
    ensures s.book.pool.used == s.book.byVip.Keys + AnonVips(s) && s.book.byVip.Keys !! AnonVips(s)
  {
    EmptyInv();
    ExecInv(EMPTY, run);
    ExecRange(EMPTY, run);
    forall g, h | g in s.book.recs && h in s.book.recs && s.book.recs[g].vip == s.book.recs[h].vip != 0 ensures g == h {
      NoSharedAddress(s.book, g, h);
    }
  }

  /** No operation moves the allocatable range. */
  lemma StepRange(s: Sys, op: Op)
    requires Enabled(s, op)
    ensures Do(s, op).book.pool.start == s.book.pool.start && Do(s, op).book.pool.end == s.book.pool.end
  {
  }

  lemma {:induction false} ExecRange(s: Sys, run: seq<Op>)
    requires Exec(s, run).Some?
    ensures Exec(s, run).value.book.pool.start == s.book.pool.start
    ensures Exec(s, run).value.book.pool.end == s.book.pool.end
    decreases |run|
  {
    if run != [] {
      StepRange(s, run[0]);
      ExecRange(Do(s, run[0]), run[1..]);
    }
  }

  /** In every reachable state the credential index is the inverse of the records' credentials
      and a blocked device has none. */
  lemma CredentialsAgree(run: seq<Op>, s: Sys)
    requires Exec(EMPTY, run) == Some(s)
    ensures forall id, h ::
              (id in s.book.byId && s.book.byId[id] == h) <==>
              (h in s.book.recs && s.book.recs[h].deviceId == id != "")
    ensures forall h | IsBlocked(s.book, h) :: Credential(s.book, h).None? && s.book.recs[h].deviceKey == ""
  {
    EmptyInv();
    ExecInv(EMPTY, run);
  }

  /** Every session entry is under the connection's own address and name, and the names of live
      connections are pairwise distinct. */
  lemma SessionsAgree(run: seq<Op>, s: Sys)
    requires Exec(EMPTY, run) == Some(s)
    ensures forall v | v in s.devices ::
              && s.devices[v] in s.conns && s.conns[s.devices[v]].vip == v
              && s.conns[s.devices[v]].name in s.byName && s.byName[s.conns[s.devices[v]].name] == s.devices[v]
    ensures forall c, d | Registered(s, c) && Registered(s, d) && s.conns[c].name == s.conns[d].name :: c == d
  {
    EmptyInv();
    ExecInv(EMPTY, run);
  }

  /** Removing a connection whose address has been taken over changes neither the new holder's
      entries nor the pool. */
  lemma LateRemovalIsHarmless(run: seq<Op>, s: Sys, c: nat)
    requires Exec(EMPTY, run) == Some(s) && Registered(s, c)
    requires s.conns[c].vip in s.devices && s.devices[s.conns[c].vip] != c
    ensures var t, d := Remove(s, c), s.devices[s.conns[c].vip];
      && t.book == s.book && t.devices == s.devices
      && t.byName == s.byName - {s.conns[c].name}
      && d in t.conns && d in s.conns && t.conns[d] == s.conns[d]
      && t.conns[d].name in t.byName && t.byName[t.conns[d].name] == d
  {
    EmptyInv();
    ExecInv(EMPTY, run);
  }

  // ----- Lease stability -----

  /** Neither a clock used by an operation has reached the device's expiry nor does the
      operation set the device's address by hand. */
  predicate Spares(s: Sys, op: Op, h: string) {
    && h in s.book.recs && s.book.recs[h].expire.Some?
    && match op
       case OpRegister(_, _, _, now) => now < s.book.recs[h].expire.value
       case OpPrune(now) => now < s.book.recs[h].expire.value
       case OpSetIP(hwid, _) => hwid != h
       case _ => true
  }

  predicate SparesAll(s: Sys, run: seq<Op>, h: string)
    requires Exec(s, run).Some?
    decreases |run|
  {
    run == [] || (Spares(s, run[0], h) && SparesAll(Do(s, run[0]), run[1..], h))
  }

  predicate HasLease(b: Book, h: string, v: nat) { h in b.recs && b.recs[h].vip == v != 0 && b.recs[h].expire.Some? }

  /** Assigning to one device leaves the other records, apart from expired leases. */
  lemma AssignLeavesOthers(b: Book, hwid: string, name: string, now: int, h: string)
    requires h != hwid && h in b.recs
    ensures h in Assign(b, hwid, name, now).0.recs && Assign(b, hwid, name, now).0.recs[h] == PruneRec(b.recs[h], now)
  {
    var p := Prune(b, now);
    var q := p.(recs := p.recs[hwid := RecOf(p, hwid)]);
    assert q.recs[h] == p.recs[h];
    assert Pick(q, hwid).0.recs[h] == q.recs[h];
  }

  /** Assigning to a device whose lease has not run out renews it. */
  lemma AssignRenews(b: Book, h: string, name: string, now: int, v: nat, anon: set<nat>)
    requires Inv(b, anon) && h != "" && HasLease(b, h, v) && now < b.recs[h].expire.value
    ensures HasLease(Assign(b, h, name, now).0, h, v) && Assign(b, h, name, now).1 == Some((v, now + LEASE))
  {
    var p := Prune(b, now);
    PruneInv(b, now, anon);
    assert p.recs[h] == b.recs[h];
    MakeRecInv(p, h, anon);
    PickInv(p.(recs := p.recs[h := RecOf(p, h)]), h, anon);
  }

  lemma RegisterKeepsLease(s: Sys, c: nat, name: string, hwid: string, now: int, h: string, v: nat)
    requires Inv(s.book, AnonVips(s)) && HasLease(s.book, h, v) && now < s.book.recs[h].expire.value && h != ""
    ensures HasLease(AllocVip(s.book, hwid, name, now).0, h, v)
  {
    if hwid == h { AssignRenews(s.book, h, name, now, v, AnonVips(s)); }
    else if hwid != "" { AssignLeavesOthers(s.book, hwid, name, now, h); }
  }

  /** Setting another device's address, or editing rules, credentials and blocks, changes no
      address or expiry of `h`. */
  lemma SetIPKeepsLease(b: Book, hwid: string, vip: nat, h: string, v: nat)
    requires HasLease(b, h, v) && h != hwid
    ensures HasLease(SetIP(b, hwid, vip).0, h, v)
  {
  }

  lemma RulesKeepLease(b: Book, hwid: string, rules: seq<string>, h: string, v: nat)
    requires HasLease(b, h, v)
    ensures HasLease(SetForward(b, hwid, rules).0, h, v)
  {
  }

  lemma RegistrationKeepsLease(b: Book, hwid: string, name: string, id: string, key: string, h: string, v: nat)
    requires HasLease(b, h, v)
    ensures HasLease(HandleRegister(b, hwid, name, id, key).0, h, v)
  {
  }

  lemma BlockKeepsLease(b: Book, hwid: string, h: string, v: nat)
    requires HasLease(b, h, v)
    ensures HasLease(ClearCredential(b, hwid).0, h, v)
    ensures HasLease(Block(b, hwid).0, h, v)
    ensures HasLease(Unblock(b, hwid).0, h, v)
  {
  }

  lemma StepKeepsLease(s: Sys, op: Op, h: string, v: nat)
    requires SysInv(s) && Enabled(s, op) && HasLease(s.book, h, v) && Spares(s, op, h)
    ensures HasLease(Do(s, op).book, h, v)
  {
    match op
    case OpRegister(c, name, hwid, now) => RegisterKeepsLease(s, c, name, hwid, now, h, v);
    case OpSetIP(hwid, vip) => SetIPKeepsLease(s.book, hwid, vip, h, v);
    case OpSetForward(hwid, rules) => RulesKeepLease(s.book, hwid, rules, h, v);
    case OpHandleRegister(hwid, name, id, key) => RegistrationKeepsLease(s.book, hwid, name, id, key, h, v);
    case OpClear(hwid) => BlockKeepsLease(s.book, hwid, h, v);
    case OpBlock(hwid) => BlockKeepsLease(s.book, hwid, h, v);
    case OpUnblock(hwid) => BlockKeepsLease(s.book, hwid, h, v);
    case OpPrune(now) => assert PruneRec(s.book.recs[h], now) == s.book.recs[h];
    case _ =>
  }

  lemma {:induction false} RunKeepsLease(s: Sys, run: seq<Op>, h: string, v: nat)
    requires SysInv(s) && Exec(s, run).Some? && HasLease(s.book, h, v) && SparesAll(s, run, h)
    ensures HasLease(Exec(s, run).value.book, h, v)
    decreases |run|
  {
    if run != [] {
      StepKeepsLease(s, run[0], h, v);
      StepInv(s, run[0]);
      RunKeepsLease(Do(s, run[0]), run[1..], h, v);
    }
  }

  /** The same device gets the same address back, whatever other devices, administrators and
      anonymous connections do in between, until its lease runs out. */
  lemma LeaseIsStable(before: seq<Op>, between: seq<Op>, s: Sys, t: Sys, h: string, n1: string, t1: int, n2: string,
                      t2: int)
    requires Exec(EMPTY, before) == Some(s) && h != ""
    requires Assign(s.book, h, n1, t1).1.Some?
    requires Exec(s.(book := Assign(s.book, h, n1, t1).0), between) == Some(t)
    requires SparesAll(s.(book := Assign(s.book, h, n1, t1).0), between, h)
    requires h in t.book.recs && t.book.recs[h].expire.Some? && t2 < t.book.recs[h].expire.value
    ensures Assign(t.book, h, n2, t2).1 == Some((Assign(s.book, h, n1, t1).1.value.0, t2 + LEASE))
  {
    EmptyInv();
    ExecInv(EMPTY, before);
    var (b, r) := Assign(s.book, h, n1, t1);
    AssignInv(s.book, h, n1, t1, AnonVips(s));
    BookOpInv(s, b);
    var u := s.(book := b);
    RunKeepsLease(u, between, h, r.value.0);
    ExecInv(u, between);
    AssignRenews(t.book, h, n2, t2, r.value.0, AnonVips(t));
  }

  /** Expiry takes the address and nothing else: rules, credential, name and block stay, as do
      the other devices' leases.  The address was in the pool, is on record for nobody now, and
      can be given out again. */
  lemma ExpiryKeepsTheRecord(run: seq<Op>, s: Sys, now: int, h: string)
    requires Exec(EMPTY, run) == Some(s) && h in s.book.recs && Expired(s.book.recs[h], now)
    ensures var p, vip := Prune(s.book, now), s.book.recs[h].vip;
      && h in p.recs && p.recs[h] == s.book.recs[h].(vip := 0, expire := None) && p.byId == s.book.byId
      && (forall g | g in s.book.recs && !Expired(s.book.recs[g], now) :: g in p.recs && p.recs[g] == s.book.recs[g])
      && vip in s.book.pool.used && p.pool.used == p.byVip.Keys + AnonVips(s) && vip !in p.pool.used
      && (forall g | g in p.recs :: p.recs[g].vip != vip)
      && TakeFree(p.pool).1.Some? && TakeFree(p.pool).1.value <= vip
  {
    EmptyInv();
    ExecInv(EMPTY, run);
    ExpiredIsFree(s.book, now, h, AnonVips(s));
  }

  lemma ExpiredIsFree(b: Book, now: int, h: string, anon: set<nat>)
    requires Inv(b, anon) && h in b.recs && Expired(b.recs[h], now)
    ensures var p, vip := Prune(b, now), b.recs[h].vip;
      && vip in b.pool.used && p.pool.used == p.byVip.Keys + anon && vip !in p.pool.used
      && (forall g | g in p.recs :: p.recs[g].vip != vip)
      && TakeFree(p.pool).1.Some? && TakeFree(p.pool).1.value <= vip
  {
    PruneInv(b, now, anon);
    var p, vip := Prune(b, now), b.recs[h].vip;
    assert vip in b.byVip.Keys && vip in ExpiredVips(b, now);
    forall g | g in p.recs ensures p.recs[g].vip != vip {
      if b.recs[g].vip == vip { NoSharedAddress(b, g, h); }
    }
    assert p.pool.InRange(vip);
  }
}
