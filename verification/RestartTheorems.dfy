/** The server's tables over every run after a restart. */
module RestartTheorems {
  import opened Common
  import opened IpPool
  import opened Devices
  import opened DeviceInvariants
  import opened Sessions
  import opened SessionTheorems
  import opened DeviceRestart

  /** The server after a restart: the records and both reverse indices are loaded, the pool is
      new and nobody is connected. */
  function Reborn(s: Sys): Sys { Sys(Restarted(s.book), map[], map[], map[]) }

  /** Sessions, indices and addresses are right; not every leased address is in the pool. */
  ghost predicate Sound(s: Sys) { TablesAgree(s) && AnonOk(s) && Loaded(s.book, AnonVips(s)) }

  lemma RebornIsSound(s: Sys)
    requires SysInv(s)
    ensures Sound(Reborn(s))
  {
    assert AnonVips(Reborn(s)) == {};
    RestartLoads(s.book, AnonVips(s));
  }

  /** A registration that is handed an address on record for somebody else. */
  predicate Collides(s: Sys, op: Op) { op.OpRegister? && TakesLeased(s.book, op.hwid, op.now) }

  // ----- What every operation keeps -----

  lemma BookSound(s: Sys, book: Book)
    requires Sound(s) && Loaded(book, AnonVips(s))
    ensures Sound(s.(book := book))
  {
    SameAnon(s, s.(book := book));
  }

  lemma EditsSound(s: Sys, op: Op)
    requires Sound(s) && !op.OpConnect? && !op.OpRegister? && !op.OpRemove?
    ensures Sound(Do(s, op))
  {
    var b, anon := s.book, AnonVips(s);
    EditsLoaded(b, anon, op);
    BookSound(s, Do(s, op).book);
  }

  /** The operations of the table alone, as `Do` takes them. */
  function Edited(b: Book, op: Op): Book
    requires !op.OpConnect? && !op.OpRegister? && !op.OpRemove?
  {
    match op
    case OpPrune(now) => Prune(b, now)
    case OpSetIP(hwid, vip) => SetIP(b, hwid, vip).0
    case OpSetForward(hwid, rules) => SetForward(b, hwid, rules).0
    case OpHandleRegister(hwid, name, id, key) => HandleRegister(b, hwid, name, id, key).0
    case OpClear(hwid) => ClearCredential(b, hwid).0
    case OpBlock(hwid) => Block(b, hwid).0
    case OpUnblock(hwid) => Unblock(b, hwid).0
  }

  lemma EditsLoaded(b: Book, anon: set<nat>, op: Op)
    requires Loaded(b, anon) && !op.OpConnect? && !op.OpRegister? && !op.OpRemove?
    ensures Loaded(Edited(b, op), anon)
  {
    match op
    case OpPrune(now) => PruneLoaded(b, now, anon);
    case OpSetIP(hwid, vip) => SetIPLoaded(b, hwid, vip, anon);
    case _ => OtherEdits(b, anon, op);
  }

  /** Rules, credentials and blocks do not touch the addresses. */
  lemma OtherEdits(b: Book, anon: set<nat>, op: Op)
    requires Loaded(b, anon)
    requires op.OpSetForward? || op.OpHandleRegister? || op.OpClear? || op.OpBlock? || op.OpUnblock?
    ensures Loaded(Edited(b, op), anon)
  {
    var a := Claimed(b, anon);
    EditCommutes(b, anon, op);
    match op
    case OpSetForward(hwid, rules) => SetForwardInv(a, hwid, rules, anon);
    case OpHandleRegister(hwid, name, id, key) => HandleRegisterInv(a, hwid, name, id, key, anon);
    case OpClear(hwid) => ClearCredentialInv(a, hwid, anon);
    case OpBlock(hwid) => BlockInv(a, hwid, anon);
    case OpUnblock(hwid) => UnblockInv(a, hwid, anon);
  }

  lemma EditCommutes(b: Book, anon: set<nat>, op: Op)
    requires op.OpSetForward? || op.OpHandleRegister? || op.OpClear? || op.OpBlock? || op.OpUnblock?
    ensures Edited(b, op).pool == b.pool && Edited(b, op).byVip == b.byVip
    ensures Claimed(Edited(b, op), anon) == Edited(Claimed(b, anon), op)
  {
    match op
    case OpSetForward(hwid, rules) =>
    case OpHandleRegister(hwid, name, id, key) => RegistrationCommutes(b, anon, hwid, name, id, key);
    case OpClear(hwid) =>
    case OpBlock(hwid) => BlockCommutes(b, anon, hwid);
    case OpUnblock(hwid) =>
  }

  lemma RegistrationCommutes(b: Book, anon: set<nat>, hwid: string, name: string, id: string, key: string)
    ensures var c := HandleRegister(b, hwid, name, id, key).0;
      && c.pool == b.pool && c.byVip == b.byVip
      && Claimed(c, anon) == HandleRegister(Claimed(b, anon), hwid, name, id, key).0
  {
  }

  lemma BlockCommutes(b: Book, anon: set<nat>, hwid: string)
    ensures var c := Block(b, hwid).0;
      c.pool == b.pool && c.byVip == b.byVip && Claimed(c, anon) == Block(Claimed(b, anon), hwid).0
  {
  }

  lemma ConnectSound(s: Sys, c: nat)
    requires Sound(s) && c !in s.conns
    ensures Sound(Do(s, OpConnect(c)))
  {
    ConnectTables(s, c);
  }

  lemma RemoveSound(s: Sys, c: nat)
    requires Sound(s) && c in s.conns
    ensures Sound(Remove(s, c))
  {
    RemoveTables(s, c);
    var t, vip := Remove(s, c), s.conns[c].vip;
    if Anonymous(s, c) {
      assert vip in AnonVips(s);
      assert Claimed(t.book, AnonVips(t)).pool.used == t.book.byVip.Keys + AnonVips(t);
    } else {
      assert t.book == s.book;
    }
  }

  /** Registering keeps the tables right exactly when the address is not somebody else's. */
  lemma RegisterSound(s: Sys, c: nat, name: string, hwid: string, now: int)
    requires Sound(s) && c in s.conns && s.conns[c] == UNREGISTERED
    ensures Sound(Register(s, c, name, hwid, now)) <==> !TakesLeased(s.book, hwid, now)
  {
    if TakesLeased(s.book, hwid, now) {
      CollisionIsUnsound(s, c, name, hwid, now);
    } else {
      OtherwiseSound(s, c, name, hwid, now);
    }
  }

  /** What `AllocVip` does to the book, without a collision. */
  lemma AllocLoaded(b: Book, hwid: string, name: string, now: int, anon: set<nat>)
    requires Loaded(b, anon) && !TakesLeased(b, hwid, now)
    ensures var (c, r) := AllocVip(b, hwid, name, now);
      && (r.Some? ==> r.value != 0 && r.value !in anon)
      && Loaded(c, anon + (if r.Some? && hwid == "" then {r.value} else {}))
  {
    var (c, r) := AllocVip(b, hwid, name, now);
    if hwid == "" {
      if r.Some? {
        var more := anon + {r.value};
        assert r.value !in b.byVip.Keys;
        assert Claimed(c, more) == Claimed(b, anon).(pool := b.pool.(used := b.byVip.Keys + more));
      } else {
        assert anon + {} == anon;
      }
    } else {
      AssignAfterRestart(b, hwid, name, now, anon);
      assert anon + {} == anon;
    }
  }

  lemma OtherwiseSound(s: Sys, c: nat, name: string, hwid: string, now: int)
    requires Sound(s) && c in s.conns && s.conns[c] == UNREGISTERED && !TakesLeased(s.book, hwid, now)
    ensures Sound(Register(s, c, name, hwid, now))
  {
    var anon := AnonVips(s);
    AllocLoaded(s.book, hwid, name, now, anon);
    var (book, r) := AllocVip(s.book, hwid, name, now);
    if r.None? {
      assert anon + {} == anon;
      BookSound(s, book);
    } else {
      var d := Conn(PickName(s.byName.Keys, name), r.value, hwid);
      EnterTables(s, c, d);
      EnterAnon(s, c, d);
      EnteredSound(Enter(s, c, d), book);
      assert Register(s, c, name, hwid, now) == Enter(s, c, d).(book := book);
    }
  }

  lemma EnteredSound(t: Sys, book: Book)
    requires TablesAgree(t) && AnonOk(t) && Loaded(book, AnonVips(t))
    ensures Sound(t.(book := book))
  {
    SameAnon(t, t.(book := book));
  }

  lemma CollisionIsUnsound(s: Sys, c: nat, name: string, hwid: string, now: int)
    requires Sound(s) && c in s.conns && s.conns[c] == UNREGISTERED && TakesLeased(s.book, hwid, now)
    ensures !Sound(Register(s, c, name, hwid, now))
  {
    var t := Register(s, c, name, hwid, now);
    var r := AllocVip(s.book, hwid, name, now).1;
    FreshAddressCollides(s.book, hwid, name, now, AnonVips(s));
    if Sound(t) { SoundIsUnique(s, c, name, hwid, now); }
  }

  /** In sound tables the address of the new connection is on record for nobody else. */
  lemma SoundIsUnique(s: Sys, c: nat, name: string, hwid: string, now: int)
    requires Sound(s) && c in s.conns && s.conns[c] == UNREGISTERED && Sound(Register(s, c, name, hwid, now))
    requires AllocVip(s.book, hwid, name, now).1.Some?
    ensures !Shared(AllocVip(s.book, hwid, name, now).0, hwid, AllocVip(s.book, hwid, name, now).1.value)
  {
    var t := Register(s, c, name, hwid, now);
    var (book, r) := AllocVip(s.book, hwid, name, now);
    if hwid == "" {
      assert t.conns[c] == Conn(PickName(s.byName.Keys, name), r.value, hwid);
      AllocNonzero(s.book, name, now, AnonVips(s));
      assert Anonymous(t, c) && r.value in AnonVips(t);
      forall g | g in book.recs && g != hwid ensures book.recs[g].vip != r.value {
        if book.recs[g].vip == r.value { LoadedIsUnique(t.book, AnonVips(t), g, g); }
      }
    } else {
      AssignAfterRestart(s.book, hwid, name, now, AnonVips(s));
      forall g | g in book.recs && g != hwid ensures book.recs[g].vip != r.value {
        if book.recs[g].vip == r.value { LoadedIsUnique(t.book, AnonVips(t), g, hwid); }
      }
    }
  }

  lemma AllocNonzero(b: Book, name: string, now: int, anon: set<nat>)
    requires Loaded(b, anon)
    ensures var r := AllocVip(b, "", name, now).1; r.Some? ==> r.value != 0
  {
  }

  /** Every operation keeps the tables right, except a registration that collides, which never
      does. */
  lemma StepSoundExactly(s: Sys, op: Op)
    requires Sound(s) && Enabled(s, op)
    ensures Sound(Do(s, op)) <==> !Collides(s, op)
  {
    match op
    case OpConnect(c) => ConnectSound(s, c);
    case OpRegister(c, name, hwid, now) => RegisterSound(s, c, name, hwid, now);
    case OpRemove(c) => RemoveSound(s, c);
    case _ => EditsSound(s, op);
  }

  // ----- Over every run after a restart -----

  /** No registration of the run is handed an address on record for somebody else. */
  predicate NoCollision(s: Sys, run: seq<Op>)
    requires Exec(s, run).Some?
    decreases |run|
  {
    run == [] || (!Collides(s, run[0]) && NoCollision(Do(s, run[0]), run[1..]))
  }

  /** The tables are right after every operation of the run. */
  ghost predicate SoundThroughout(s: Sys, run: seq<Op>)
    requires Exec(s, run).Some?
    decreases |run|
  {
    Sound(s) && (run == [] || SoundThroughout(Do(s, run[0]), run[1..]))
  }

  lemma {:induction false} RunSoundExactly(s: Sys, run: seq<Op>)
    requires Sound(s) && Exec(s, run).Some?
    ensures SoundThroughout(s, run) <==> NoCollision(s, run)
    ensures NoCollision(s, run) ==> Sound(Exec(s, run).value)
    decreases |run|
  {
    if run != [] {
      StepSoundExactly(s, run[0]);
      if Collides(s, run[0]) {
        NotSoundThen(Do(s, run[0]), run[1..]);
      } else {
        RunSoundExactly(Do(s, run[0]), run[1..]);
      }
    }
  }

  lemma NotSoundThen(s: Sys, run: seq<Op>)
    requires !Sound(s) && Exec(s, run).Some?
    ensures !SoundThroughout(s, run)
  {
  }

  /** After a restart the tables stay right throughout a run exactly when no fresh connection is
      handed an address on record; then no two devices share an address, no anonymous connection
      has a device's, and the full invariant is back as soon as every owner is. */
  lemma RestartStaysConsistentExactly(before: seq<Op>, s: Sys, after: seq<Op>, t: Sys)
    requires Exec(EMPTY, before) == Some(s) && Exec(Reborn(s), after) == Some(t)
    ensures SoundThroughout(Reborn(s), after) <==> NoCollision(Reborn(s), after)
    ensures NoCollision(Reborn(s), after) ==>
      && (forall g, h | g in t.book.recs && h in t.book.recs && t.book.recs[g].vip == t.book.recs[h].vip != 0 :: g == h)
      && (forall g | g in t.book.recs && t.book.recs[g].vip != 0 :: t.book.recs[g].vip !in AnonVips(t))
      && (SysInv(t) <==> t.book.byVip.Keys <= t.book.pool.used)
  {
    EmptyInv();
    ExecInv(EMPTY, before);
    RebornIsSound(s);
    RunSoundExactly(Reborn(s), after);
    if NoCollision(Reborn(s), after) { SoundMeans(t); }
  }

  lemma SoundMeans(t: Sys)
    requires Sound(t)
    ensures forall g, h | g in t.book.recs && h in t.book.recs && t.book.recs[g].vip == t.book.recs[h].vip != 0 ::
              g == h
    ensures forall g | g in t.book.recs && t.book.recs[g].vip != 0 :: t.book.recs[g].vip !in AnonVips(t)
    ensures SysInv(t) <==> t.book.byVip.Keys <= t.book.pool.used
  {
    AllBack(t.book, AnonVips(t));
    forall g, h | g in t.book.recs && h in t.book.recs && t.book.recs[g].vip == t.book.recs[h].vip != 0 ensures g == h {
      LoadedIsUnique(t.book, AnonVips(t), g, h);
    }
    forall g | g in t.book.recs && t.book.recs[g].vip != 0 ensures t.book.recs[g].vip !in AnonVips(t) {
      LoadedIsUnique(t.book, AnonVips(t), g, g);
    }
  }

  // ----- A restart after which two devices hold one address -----

  /** A connection that comes in and registers. */
  lemma Registers(s: Sys, c: nat, name: string, hwid: string, run: seq<Op>)
    requires c !in s.conns && name != "" && run == [OpConnect(c), OpRegister(c, name, hwid, 0)]
    ensures Exec(s, run).Some? && Exec(s, run).value.book == AllocVip(s.book, hwid, name, 0).0
  {
    var a := Do(s, run[0]);
    assert Enabled(a, run[1]);
    var t := Do(a, run[1]);
    var last := run[1..];
    assert last[0] == run[1] && last[1..] == [];
    assert Exec(t, last[1..]) == Some(t);
    assert Exec(a, last) == Exec(t, last[1..]);
    assert Exec(s, run) == Exec(a, last);
    assert t.book == AllocVip(a.book, hwid, name, 0).0;
  }

  const FIRST: nat := NET_ADDR + 2

  function Old(): Rec { Rec("old", FIRST, Some(LEASE), [], "", "", false) }
  function OldBook(): Book { Book(map["A" := Old()], map[FIRST := "A"], map[], FRESH_POOL.(used := {FIRST})) }

  lemma FirstIsFree()
    ensures TakeFree(FRESH_POOL) == (FRESH_POOL.(used := {FIRST}), Some(FIRST))
  {
    assert FRESH_POOL.start == FIRST && FIRST !in FRESH_POOL.used;
    assert FirstFree(FRESH_POOL.used, FIRST, FRESH_POOL.end) == Some(FIRST);
    assert FRESH_POOL.used + {FIRST} == {FIRST};
  }

  lemma OldIsPicked(q: Book)
    requires q == EMPTY.book.(recs := map["A" := NEW_REC])
    ensures Pick(q, "A") ==
            (Book(map["A" := NEW_REC.(vip := FIRST)], map[FIRST := "A"], map[], FRESH_POOL.(used := {FIRST})), true)
  {
    FirstIsFree();
    var c := Grant(q, "A", FIRST, FRESH_POOL.(used := {FIRST}));
    assert Pick(q, "A") == (c, true);
    assert c.recs == map["A" := NEW_REC.(vip := FIRST)];
    assert c.byVip == map[FIRST := "A"];
  }

  lemma OldIsRenewed(c: Book)
    requires c == Book(map["A" := NEW_REC.(vip := FIRST)], map[FIRST := "A"], map[], FRESH_POOL.(used := {FIRST}))
    ensures Renew(c, "A", "old", 0) == (OldBook(), Some((FIRST, LEASE)))
  {
    assert Renew(c, "A", "old", 0).0.recs == map["A" := Old()];
  }

  lemma OldRegisters()
    ensures AllocVip(EMPTY.book, "A", "old", 0) == (OldBook(), Some(FIRST))
  {
    var b := EMPTY.book;
    assert Prune(b, 0) == b;
    var q := b.(recs := b.recs["A" := RecOf(b, "A")]);
    assert q.recs == map["A" := NEW_REC];
    OldIsPicked(q);
    OldIsRenewed(Pick(q, "A").0);
  }

  lemma NewTakesIt()
    ensures Prune(Restarted(OldBook()), 0) == Restarted(OldBook())
    ensures TakesLeased(Restarted(OldBook()), "B", 0) && TakesLeased(Restarted(OldBook()), "", 0)
  {
    var b := Restarted(OldBook());
    assert !Expired(Old(), 0);
    assert ExpiredVips(b, 0) == {};
    assert FirstFree({}, FIRST, FRESH_POOL.end) == Some(FIRST);
  }

  lemma OldServer(before: seq<Op>)
    requires before == [OpConnect(0), OpRegister(0, "old", "A", 0)]
    ensures Exec(EMPTY, before).Some? && Exec(EMPTY, before).value.book == OldBook()
  {
    Registers(EMPTY, 0, "old", "A", before);
    OldRegisters();
  }

  lemma NewServer(s: Sys, hwid: string, after: seq<Op>)
    requires s.book == OldBook() && (hwid == "B" || hwid == "")
    requires after == [OpConnect(1), OpRegister(1, "new", hwid, 0)]
    ensures Exec(Reborn(s), after).Some?
    ensures var t := Exec(Reborn(s), after).value;
      Shared(t.book, hwid, FIRST) && Assign(t.book, "A", "old", 0).1 == Some((FIRST, LEASE))
  {
    Registers(Reborn(s), 1, "new", hwid, after);
    StrangerCollides(Reborn(s).book, hwid);
  }

  lemma NewCollides(s: Sys, hwid: string)
    requires s.book == OldBook() && (hwid == "B" || hwid == "")
    ensures Collides(Do(Reborn(s), OpConnect(1)), OpRegister(1, "new", hwid, 0))
  {
    NewTakesIt();
  }

  /** After a restart of `s`, the run `after` has a stranger handed device A's address, which A
      keeps too. */
  ghost predicate Stolen(s: Sys, after: seq<Op>, hwid: string) {
    && Exec(Reborn(s), after).Some? && after == [OpConnect(1), OpRegister(1, "new", hwid, 0)]
    && Collides(Do(Reborn(s), OpConnect(1)), OpRegister(1, "new", hwid, 0))
    && var t := Exec(Reborn(s), after).value;
       Shared(t.book, hwid, FIRST) && Assign(t.book, "A", "old", 0).1 == Some((FIRST, LEASE))
  }

  /** Device A gets an address; the server is restarted; a new device, or an anonymous
      connection, comes first and is handed A's address, which A keeps too. */
  lemma StrangerTakesLeasedAddress(hwid: string)
    requires hwid == "B" || hwid == ""
    ensures exists before: seq<Op>, s: Sys, after: seq<Op> :: Exec(EMPTY, before) == Some(s) && Stolen(s, after, hwid)
  {
    var before := [OpConnect(0), OpRegister(0, "old", "A", 0)];
    OldServer(before);
    StrangerSteals(Exec(EMPTY, before).value, hwid, [OpConnect(1), OpRegister(1, "new", hwid, 0)]);
  }

  lemma StrangerSteals(s: Sys, hwid: string, after: seq<Op>)
    requires s.book == OldBook() && (hwid == "B" || hwid == "")
    requires after == [OpConnect(1), OpRegister(1, "new", hwid, 0)]
    ensures Stolen(s, after, hwid)
  {
    NewServer(s, hwid, after);
    NewCollides(s, hwid);
  }

  lemma StrangerCollides(b: Book, hwid: string)
    requires b == Restarted(OldBook()) && (hwid == "B" || hwid == "")
    ensures var (c, r) := AllocVip(b, hwid, "new", 0);
      r == Some(FIRST) && Shared(c, hwid, FIRST) && Assign(c, "A", "old", 0).1 == Some((FIRST, LEASE))
  {
    EmptyInv();
    AllocVipInv(EMPTY.book, "A", "old", 0, {});
    OldRegisters();
    var none: set<nat> := {};
    assert none + none == none;
    RestartLoads(OldBook(), {});
    NewTakesIt();
    FreshAddressCollides(b, hwid, "new", 0, {});
    TakenIsFirst(b, hwid);
    OwnerKeepsItToo(b, hwid, "new", 0, "A", "old", 0, {});
  }

  lemma TakenIsFirst(b: Book, hwid: string)
    requires b == Restarted(OldBook()) && (hwid == "B" || hwid == "")
    ensures AllocVip(b, hwid, "new", 0).1 == Some(FIRST)
  {
    NewTakesIt();
    assert FirstFree({}, FIRST, FRESH_POOL.end) == Some(FIRST);
  }
}
