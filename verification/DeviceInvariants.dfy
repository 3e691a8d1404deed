/** What every operation of the device table keeps: the reverse indices are inverses, leased
    addresses are in the pool and in its range, and a blocked device has no credential. */
module DeviceInvariants {
  import opened Common
  import opened IpPool
  import opened Devices

  /** The allocatable range holds 32-bit addresses and not the address 0. */
  predicate RangeOk(p: Pool) { 0 < p.start && p.end < 0x1_0000_0000 }

  /** `byVip` is the inverse of the records' addresses. */
  predicate VipsInverse(b: Book) {
    && (forall v | v in b.byVip :: b.byVip[v] in b.recs && b.recs[b.byVip[v]].vip == v && b.pool.InRange(v))
    && (forall h | h in b.recs && b.recs[h].vip != 0 :: b.recs[h].vip in b.byVip && b.byVip[b.recs[h].vip] == h)
    && (forall h | h in b.recs && b.recs[h].vip == 0 :: b.recs[h].expire == None)
  }

  /** `byId` is the inverse of the records' credentials, and the blocked have none. */
  predicate IdsInverse(b: Book) {
    && (forall id | id in b.byId :: id != "" && b.byId[id] in b.recs && b.recs[b.byId[id]].deviceId == id)
    && (forall h | h in b.recs && b.recs[h].deviceId != "" ::
          b.recs[h].deviceId in b.byId && b.byId[b.recs[h].deviceId] == h && b.recs[h].deviceKey != "")
    && (forall h | h in b.recs && b.recs[h].deviceId == "" :: b.recs[h].deviceKey == "")
    && "" !in b.recs
  }

  predicate BlockedHaveNone(b: Book) {
    forall h | h in b.recs && b.recs[h].blocked :: b.recs[h].deviceId == ""
  }

  /** The pool holds exactly the leased addresses and those of `anon`, which are not leased. */
  predicate PoolExact(b: Book, anon: set<nat>) {
    && b.byVip.Keys !! anon && b.pool.used == b.byVip.Keys + anon
    && forall a | a in anon :: b.pool.InRange(a)
  }

  predicate Inv(b: Book, anon: set<nat>) {
    RangeOk(b.pool) && VipsInverse(b) && IdsInverse(b) && BlockedHaveNone(b) && PoolExact(b, anon)
  }

  /** No two devices share an address. */
  lemma NoSharedAddress(b: Book, g: string, h: string)
    requires VipsInverse(b) && g in b.recs && h in b.recs && b.recs[g].vip == b.recs[h].vip != 0
    ensures g == h
  {
    assert b.byVip[b.recs[g].vip] == g;
  }

  // ----- Leases -----

  /** Records with the same credentials and blocks. */
  predicate SameCredentials(b: Book, c: Book) {
    && c.byId == b.byId && b.recs.Keys == c.recs.Keys
    && forall h | h in b.recs ::
         && c.recs[h].deviceId == b.recs[h].deviceId && c.recs[h].deviceKey == b.recs[h].deviceKey
         && c.recs[h].blocked == b.recs[h].blocked
  }

  lemma CredentialsKept(b: Book, c: Book)
    requires IdsInverse(b) && BlockedHaveNone(b) && SameCredentials(b, c)
    ensures IdsInverse(c) && BlockedHaveNone(c)
  {
    forall h | h in c.recs ensures h in b.recs { assert h in c.recs.Keys; }
  }

  /** Records with the same leases. */
  predicate SameLeases(b: Book, c: Book) {
    && c.byVip == b.byVip && c.pool == b.pool && b.recs.Keys == c.recs.Keys
    && forall h | h in b.recs :: c.recs[h].vip == b.recs[h].vip && c.recs[h].expire == b.recs[h].expire
  }

  lemma LeasesKept(b: Book, c: Book)
    requires VipsInverse(b) && SameLeases(b, c)
    ensures VipsInverse(c)
  {
    forall h | h in c.recs ensures h in b.recs { assert h in c.recs.Keys; }
  }

  lemma PruneVips(b: Book, now: int)
    requires VipsInverse(b)
    ensures VipsInverse(Prune(b, now))
  {
    var c := Prune(b, now);
    forall v | v in c.byVip ensures c.byVip[v] in c.recs && c.recs[c.byVip[v]].vip == v && c.pool.InRange(v) {
      var h := b.byVip[v];
      assert v !in ExpiredVips(b, now);
      assert !Expired(b.recs[h], now);
    }
    forall h | h in c.recs && c.recs[h].vip != 0 ensures c.recs[h].vip in c.byVip && c.byVip[c.recs[h].vip] == h {
      forall g | g in b.recs && Expired(b.recs[g], now) ensures b.recs[g].vip != b.recs[h].vip {
        if b.recs[g].vip == b.recs[h].vip { NoSharedAddress(b, g, h); }
      }
    }
  }

  /** Expired leases give their addresses back to the pool; nothing else is released. */
  lemma PruneInv(b: Book, now: int, anon: set<nat>)
    requires Inv(b, anon)
    ensures Inv(Prune(b, now), anon)
  {
    PruneVips(b, now);
    var c := Prune(b, now);
    var gone := ExpiredVips(b, now);
    assert gone <= b.byVip.Keys;
    assert c.byVip.Keys == b.byVip.Keys - gone;
    assert c.pool.used == c.byVip.Keys + anon;
    CredentialsKept(b, c);
  }

  lemma MakeRecInv(b: Book, hwid: string, anon: set<nat>)
    requires Inv(b, anon) && hwid != ""
    ensures Inv(b.(recs := b.recs[hwid := RecOf(b, hwid)]), anon)
  {
  }

  /** Giving a device without an address one that was free keeps the books. */
  lemma GrantVips(b: Book, hwid: string, vip: nat, pool: Pool)
    requires RangeOk(b.pool) && VipsInverse(b) && hwid in b.recs && b.recs[hwid].vip == 0 && vip !in b.byVip
    requires pool.start == b.pool.start && pool.end == b.pool.end && pool.InRange(vip)
    ensures var c := Grant(b, hwid, vip, pool);
      && (forall v | v in c.byVip :: c.byVip[v] in c.recs && c.recs[c.byVip[v]].vip == v && c.pool.InRange(v))
      && (forall h | h in c.recs && c.recs[h].vip != 0 :: c.recs[h].vip in c.byVip && c.byVip[c.recs[h].vip] == h)
  {
  }

  lemma GrantCredentials(b: Book, hwid: string, vip: nat, pool: Pool)
    requires hwid in b.recs
    ensures SameCredentials(b, Grant(b, hwid, vip, pool))
  {
  }

  lemma GrantInv(b: Book, hwid: string, vip: nat, pool: Pool, anon: set<nat>)
    requires Inv(b, anon) && hwid in b.recs && b.recs[hwid].vip == 0
    requires b.pool.InRange(vip) && vip !in b.pool.used && pool == b.pool.(used := b.pool.used + {vip})
    ensures Inv(Grant(b, hwid, vip, pool), anon)
  {
    var c := Grant(b, hwid, vip, pool);
    GrantVips(b, hwid, vip, pool);
    assert c.byVip.Keys == b.byVip.Keys + {vip};
    assert vip !in anon;
    GrantCredentials(b, hwid, vip, pool);
    CredentialsKept(b, c);
  }

  lemma RenewInv(b: Book, hwid: string, name: string, now: int, anon: set<nat>)
    requires Inv(b, anon) && hwid in b.recs && b.recs[hwid].vip != 0
    ensures Inv(Renew(b, hwid, name, now).0, anon)
  {
  }

  /** From a consistent book an address on record is held, so only the first two cases of the
      switch arise. */
  lemma PickInv(b: Book, hwid: string, anon: set<nat>)
    requires Inv(b, anon) && hwid in b.recs
    ensures Inv(Pick(b, hwid).0, anon)
    ensures hwid in Pick(b, hwid).0.recs && (Pick(b, hwid).1 ==> Pick(b, hwid).0.recs[hwid].vip != 0)
    ensures b.recs[hwid].vip != 0 ==> Pick(b, hwid) == (b, true)
    ensures b.recs[hwid].vip == 0 && Pick(b, hwid).1 ==> Pick(b, hwid).0.recs[hwid].vip !in b.pool.used
    ensures !Pick(b, hwid).1 <==> b.recs[hwid].vip == 0 && forall v | b.pool.InRange(v) :: v in b.pool.used
  {
    var vip := b.recs[hwid].vip;
    if vip == 0 {
      var (pool, v) := TakeFree(b.pool);
      if v.Some? { GrantInv(b, hwid, v.value, pool, anon); }
    } else {
      assert vip in b.byVip.Keys;
    }
  }

  lemma AssignInv(b: Book, hwid: string, name: string, now: int, anon: set<nat>)
    requires Inv(b, anon) && hwid != ""
    ensures Inv(Assign(b, hwid, name, now).0, anon)
    ensures var (c, r) := Assign(b, hwid, name, now);
      r.Some? ==> hwid in c.recs && c.recs[hwid].vip == r.value.0 != 0 && c.recs[hwid].expire == Some(r.value.1)
  {
    var p := Prune(b, now);
    PruneInv(b, now, anon);
    MakeRecInv(p, hwid, anon);
    var q := p.(recs := p.recs[hwid := RecOf(p, hwid)]);
    PickInv(q, hwid, anon);
    var (c, ok) := Pick(q, hwid);
    if ok { RenewInv(c, hwid, name, now, anon); }
  }

  /** Assigning prunes, and then changes one record: its address, name and expiry.  Rules,
      credential and block stay, and other records only lose what has expired. */
  lemma AssignChangesOneRecord(b: Book, hwid: string, name: string, now: int)
    ensures var (c, r) := Assign(b, hwid, name, now);
      && c.byId == b.byId
      && (r.Some? ==> c.recs == Prune(b, now).recs[hwid := RecOf(Prune(b, now), hwid).(name := name, vip := r.value.0,
                                                                                       expire := Some(r.value.1))])
      && (r.None? ==> c.recs == Prune(b, now).recs[hwid := RecOf(Prune(b, now), hwid)])
  {
    var p := Prune(b, now);
    var q := p.(recs := p.recs[hwid := RecOf(p, hwid)]);
    PickOneRecord(q, hwid);
    var (c, ok) := Pick(q, hwid);
    if ok {
      assert p.recs[hwid := c.recs[hwid]] == q.recs[hwid := c.recs[hwid]];
    }
  }

  lemma PickOneRecord(b: Book, hwid: string)
    requires hwid in b.recs
    ensures var (c, ok) := Pick(b, hwid);
      && hwid in c.recs && c.recs == b.recs[hwid := b.recs[hwid].(vip := c.recs[hwid].vip)] && c.byId == b.byId
      && (!ok ==> c.recs == b.recs)
  {
    assert b.recs[hwid := b.recs[hwid]] == b.recs;
  }

  /** Moving a device from one address to another that was free. */
  lemma MoveVips(b: Book, hwid: string, vip: nat, anon: set<nat>)
    requires RangeOk(b.pool) && VipsInverse(b) && PoolExact(b, anon) && hwid in b.recs && b.recs[hwid].vip != 0
    requires b.pool.InRange(vip) && vip !in b.pool.used
    ensures var c := SetIP(b, hwid, vip).0; hwid != "" ==> VipsInverse(c) && PoolExact(c, anon)
  {
    var c := SetIP(b, hwid, vip).0;
    var was := b.recs[hwid].vip;
    assert was in b.byVip.Keys && vip !in b.byVip.Keys;
    if hwid != "" {
      assert c.byVip.Keys == (b.byVip.Keys - {was}) + {vip};
      assert c.pool.used == c.byVip.Keys + anon;
      forall h | h in c.recs && c.recs[h].vip != 0 ensures c.recs[h].vip in c.byVip && c.byVip[c.recs[h].vip] == h {
        if h != hwid && b.recs[h].vip == was { NoSharedAddress(b, h, hwid); }
      }
    }
  }

  lemma SetIPInv(b: Book, hwid: string, vip: nat, anon: set<nat>)
    requires Inv(b, anon)
    ensures Inv(SetIP(b, hwid, vip).0, anon)
  {
    var (c, ok) := SetIP(b, hwid, vip);
    if c != b {
      if b.recs[hwid].vip == 0 {
        GrantInv(b, hwid, vip, c.pool, anon);
      } else {
        MoveVips(b, hwid, vip, anon);
        CredentialsKept(b, c);
      }
    }
  }

  /** A consistent table moves a device exactly to an address that is its own or that nobody
      holds, frees the one it had, and changes nothing else. */
  lemma SetIPExactly(b: Book, hwid: string, vip: nat, anon: set<nat>)
    requires Inv(b, anon)
    ensures var (c, ok) := SetIP(b, hwid, vip);
      && (ok <==> hwid in b.recs && b.pool.InRange(vip) && (b.recs[hwid].vip == vip || vip !in b.pool.used))
      && (!ok ==> c == b)
      && (ok ==> c.recs == b.recs[hwid := b.recs[hwid].(vip := vip)] && c.byId == b.byId
                 && c.pool.used == b.pool.used - {b.recs[hwid].vip} + {vip})
  {
    if hwid in b.recs {
      var was := b.recs[hwid].vip;
      assert was != 0 ==> was in b.byVip.Keys;
      if vip in b.byVip { assert vip in b.byVip.Keys; }
      if was == vip {
        assert b.recs[hwid := b.recs[hwid].(vip := vip)] == b.recs;
        if b.pool.InRange(vip) { assert b.pool.used - {was} + {vip} == b.pool.used; }
      } else if was == 0 {
        assert 0 !in b.pool.used;
        assert b.pool.used - {was} == b.pool.used;
      }
    }
  }

  lemma SetForwardInv(b: Book, hwid: string, rules: seq<string>, anon: set<nat>)
    requires Inv(b, anon)
    ensures Inv(SetForward(b, hwid, rules).0, anon)
  {
    if hwid != "" {
      var r := RecOf(b, hwid).(forward := rules);
      SameButRules(b, hwid, r, anon);
    }
  }

  /** Editing a record's rules touches no index. */
  lemma SameButRules(b: Book, hwid: string, r: Rec, anon: set<nat>)
    requires Inv(b, anon) && hwid != "" && r == RecOf(b, hwid).(forward := r.forward)
    ensures Inv(b.(recs := b.recs[hwid := r]), anon)
  {
    MakeRecInv(b, hwid, anon);
    var a, c := b.(recs := b.recs[hwid := RecOf(b, hwid)]), b.(recs := b.recs[hwid := r]);
    RulesOnly(b, hwid, r);
    BothKept(a, c, anon);
  }

  lemma RulesOnly(b: Book, hwid: string, r: Rec)
    requires r == RecOf(b, hwid).(forward := r.forward)
    ensures var a, c := b.(recs := b.recs[hwid := RecOf(b, hwid)]), b.(recs := b.recs[hwid := r]);
      SameCredentials(a, c) && SameLeases(a, c)
  {
  }

  lemma BothKept(b: Book, c: Book, anon: set<nat>)
    requires Inv(b, anon) && SameCredentials(b, c) && SameLeases(b, c)
    ensures Inv(c, anon)
  {
    CredentialsKept(b, c);
    LeasesKept(b, c);
  }

  // ----- Credentials -----

  /** The book with the credential of `r` entered. */
  function Registered(b: Book, hwid: string, r: Rec): Book {
    b.(recs := b.recs[hwid := r], byId := b.byId[r.deviceId := hwid])
  }

  predicate NewCredential(b: Book, hwid: string, r: Rec) {
    && hwid != "" && RecOf(b, hwid).deviceId == "" && !IsBlocked(b, hwid)
    && r == RecOf(b, hwid).(name := r.name, deviceId := r.deviceId, deviceKey := r.deviceKey)
    && r.deviceId != "" && r.deviceKey != "" && r.deviceId !in b.byId
  }

  lemma AddCredentialIds(b: Book, hwid: string, r: Rec)
    requires IdsInverse(b) && BlockedHaveNone(b) && NewCredential(b, hwid, r)
    ensures IdsInverse(Registered(b, hwid, r)) && BlockedHaveNone(Registered(b, hwid, r))
  {
  }

  lemma AddCredentialVips(b: Book, hwid: string, r: Rec)
    requires VipsInverse(b) && NewCredential(b, hwid, r)
    ensures VipsInverse(Registered(b, hwid, r))
  {
  }

  /** Registering a device that has no credential and is not blocked. */
  lemma AddCredentialInv(b: Book, hwid: string, r: Rec, anon: set<nat>)
    requires Inv(b, anon) && NewCredential(b, hwid, r)
    ensures Inv(Registered(b, hwid, r), anon)
  {
    AddCredentialIds(b, hwid, r);
    AddCredentialVips(b, hwid, r);
  }

  lemma SetCredentialInv(b: Book, hwid: string, name: string, id: string, key: string, anon: set<nat>)
    requires Inv(b, anon) && !IsBlocked(b, hwid)
    ensures Inv(SetCredential(b, hwid, name, id, key).0, anon)
  {
    if hwid != "" {
      MakeRecInv(b, hwid, anon);
      var r := RecOf(b, hwid);
      if r.deviceId == "" && id != "" && key != "" && id !in b.byId {
        var shown := if name != "" then name else r.name;
        AddCredentialInv(b, hwid, r.(deviceId := id, deviceKey := key, name := shown), anon);
      }
    }
  }

  lemma DropCredentialInv(b: Book, hwid: string, anon: set<nat>)
    requires Inv(b, anon) && hwid in b.recs
    ensures Inv(DropCredential(b, hwid), anon)
    ensures hwid in DropCredential(b, hwid).recs && DropCredential(b, hwid).recs[hwid].deviceId == ""
  {
    var c := DropCredential(b, hwid);
    forall h | h in c.recs && c.recs[h].deviceId != ""
      ensures c.recs[h].deviceId in c.byId && c.byId[c.recs[h].deviceId] == h
    {
      assert b.byId[b.recs[h].deviceId] == h;
    }
  }

  lemma ClearCredentialInv(b: Book, hwid: string, anon: set<nat>)
    requires Inv(b, anon)
    ensures Inv(ClearCredential(b, hwid).0, anon)
  {
    if hwid in b.recs { DropCredentialInv(b, hwid, anon); }
  }

  function Marked(b: Book, hwid: string, blocked: bool): Book
    requires hwid in b.recs
  {
    b.(recs := b.recs[hwid := b.recs[hwid].(blocked := blocked)])
  }

  lemma MarkCredentials(b: Book, hwid: string, blocked: bool)
    requires IdsInverse(b) && BlockedHaveNone(b) && hwid in b.recs && (blocked ==> b.recs[hwid].deviceId == "")
    ensures IdsInverse(Marked(b, hwid, blocked)) && BlockedHaveNone(Marked(b, hwid, blocked))
  {
  }

  lemma MarkLeases(b: Book, hwid: string, blocked: bool)
    requires hwid in b.recs
    ensures SameLeases(b, Marked(b, hwid, blocked))
  {
  }

  lemma MarkInv(b: Book, hwid: string, blocked: bool, anon: set<nat>)
    requires Inv(b, anon) && hwid in b.recs && (blocked ==> b.recs[hwid].deviceId == "")
    ensures Inv(Marked(b, hwid, blocked), anon)
  {
    MarkCredentials(b, hwid, blocked);
    MarkLeases(b, hwid, blocked);
    LeasesKept(b, Marked(b, hwid, blocked));
  }

  lemma BlockInv(b: Book, hwid: string, anon: set<nat>)
    requires Inv(b, anon)
    ensures Inv(Block(b, hwid).0, anon)
    ensures hwid != "" ==> IsBlocked(Block(b, hwid).0, hwid)
  {
    if hwid != "" {
      var c := b.(recs := b.recs[hwid := RecOf(b, hwid)]);
      MakeRecInv(b, hwid, anon);
      DropCredentialInv(c, hwid, anon);
      MarkInv(DropCredential(c, hwid), hwid, true, anon);
    }
  }

  lemma UnblockInv(b: Book, hwid: string, anon: set<nat>)
    requires Inv(b, anon)
    ensures Inv(Unblock(b, hwid).0, anon)
  {
    if hwid in b.recs { MarkInv(b, hwid, false, anon); }
  }

  lemma HandleRegisterInv(b: Book, hwid: string, name: string, id: string, key: string, anon: set<nat>)
    requires Inv(b, anon)
    ensures Inv(HandleRegister(b, hwid, name, id, key).0, anon)
  {
    if !IsBlocked(b, hwid) { SetCredentialInv(b, hwid, name, id, key, anon); }
  }

  /** A credential handed out is the device's own and authenticates: looking its identifier up
      finds its key.  A blocked device gets none. */
  lemma RegisteredCredentialWorks(b: Book, hwid: string, name: string, id: string, key: string, anon: set<nat>)
    requires Inv(b, anon)
    ensures var (c, r) := HandleRegister(b, hwid, name, id, key);
      && (r.Some? ==> hwid in c.recs && c.recs[hwid].deviceId == r.value.0 && KeyById(c, r.value.0) == r.value.1 != "")
      && (IsBlocked(b, hwid) ==> r.None? && c == b)
      && (Credential(b, hwid).Some? && !IsBlocked(b, hwid) ==> r == Credential(b, hwid) && c == b)
  {
    HandleRegisterInv(b, hwid, name, id, key, anon);
  }

  /** A credential that was cleared, or whose device was blocked, no longer authenticates, and
      the other credentials still do. */
  lemma RevokedCredentialFails(b: Book, hwid: string, anon: set<nat>)
    requires Inv(b, anon) && Credential(b, hwid).Some?
    ensures var id := Credential(b, hwid).value.0;
      && KeyById(b, id) == Credential(b, hwid).value.1
      && KeyById(ClearCredential(b, hwid).0, id) == "" && KeyById(Block(b, hwid).0, id) == ""
      && forall other | other != id :: KeyById(ClearCredential(b, hwid).0, other) == KeyById(b, other)
                                       && KeyById(Block(b, hwid).0, other) == KeyById(b, other)
  {
    var id := b.recs[hwid].deviceId;
    var c := DropCredential(b, hwid);
    DropCredentialInv(b, hwid, anon);
    assert b.recs[hwid := RecOf(b, hwid)] == b.recs;
    forall other | other != id ensures KeyById(c, other) == KeyById(b, other) {}
  }

  /** `SetCredential` gives a credential exactly to a device that has none, under an identifier
      nobody has, and refuses without changing any credential. */
  lemma SetCredentialExactly(b: Book, hwid: string, name: string, id: string, key: string, anon: set<nat>)
    requires Inv(b, anon)
    ensures var (c, ok) := SetCredential(b, hwid, name, id, key);
      && (ok <==> hwid != "" && id != "" && key != "" && id !in b.byId && Credential(b, hwid).None?)
      && (ok ==> Credential(c, hwid) == Some((id, key)) && KeyById(c, id) == key)
      && (!ok ==> c.byId == b.byId && forall h :: Credential(c, h) == Credential(b, h))
      && forall h | h != hwid :: Credential(c, h) == Credential(b, h)
  {
    if id in b.byId && b.byId[id] == hwid { assert b.recs[hwid].deviceId == id; }
  }

  /** `SetCredential` itself does not look at the block flag: run after a `Block` that came
      between the check and the call, it gives a blocked device a credential. */
  lemma UncheckedCredentialBreaksBlocking()
    ensures exists b: Book ::
      && b == Book(map[], map[], map[], FRESH_POOL) && !IsBlocked(b, "d")
      && var c := SetCredential(Block(b, "d").0, "d", "", "i", "k").0;
         IsBlocked(c, "d") && c.recs["d"].deviceId == "i" && !BlockedHaveNone(c)
  {
    var b := Book(map[], map[], map[], FRESH_POOL);
    var blocked := Block(b, "d").0;
    assert blocked.recs["d"] == NEW_REC.(blocked := true);
    var c := SetCredential(blocked, "d", "", "i", "k").0;
    assert c.recs["d"] == NEW_REC.(blocked := true, deviceId := "i", deviceKey := "k");
  }

  /** `SetCredential` keeps the blocked without credentials exactly when the device is not
      blocked or the call is refused. */
  lemma SetCredentialKeepsBlocking(b: Book, hwid: string, name: string, id: string, key: string, anon: set<nat>)
    requires Inv(b, anon)
    ensures BlockedHaveNone(SetCredential(b, hwid, name, id, key).0) <==>
            !(IsBlocked(b, hwid) && id != "" && key != "" && id !in b.byId)
  {
    var (c, ok) := SetCredential(b, hwid, name, id, key);
    if hwid in c.recs && ok { assert c.recs[hwid].deviceId == id; }
    if IsBlocked(b, hwid) { assert b.recs[hwid].deviceId == ""; }
    if id in b.byId && b.byId[id] == hwid { assert b.recs[hwid].deviceId == id; }
  }
}
