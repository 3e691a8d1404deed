/** Addresses after a restart: the loaded leases are on record but not in the new pool
    (internal/server/devices.go). */
module DeviceRestart {
  import opened Common
  import opened IpPool
  import opened Devices
  import opened DeviceInvariants
  import opened Sessions

  /** The book as it would be were every leased address in the pool. */
  function Claimed(b: Book, anon: set<nat>): Book { b.(pool := b.pool.(used := b.byVip.Keys + anon)) }

  /** The invariant without "every leased address is in the pool". */
  predicate Loaded(b: Book, anon: set<nat>) {
    Inv(Claimed(b, anon), anon) && anon <= b.pool.used <= b.byVip.Keys + anon
  }

  function Restarted(b: Book): Book { b.(pool := b.pool.(used := {})) }

  lemma RestartLoads(b: Book, anon: set<nat>)
    requires Inv(b, anon)
    ensures Loaded(Restarted(b), {})
  {
  }

  /** Once every owner is back the full invariant holds again. */
  lemma AllBack(b: Book, anon: set<nat>)
    requires Loaded(b, anon)
    ensures Inv(b, anon) <==> b.byVip.Keys <= b.pool.used
  {
    if b.byVip.Keys <= b.pool.used { assert b == Claimed(b, anon); }
  }

  // ----- Operations that leave the pool alone, and expiry -----

  /** Operations that leave the addresses alone. */
  lemma SamePool(b: Book, c: Book, anon: set<nat>)
    requires Loaded(b, anon) && c.pool == b.pool && c.byVip == b.byVip && Inv(Claimed(c, anon), anon)
    ensures Loaded(c, anon)
  {
  }

  lemma PruneLoaded(b: Book, now: int, anon: set<nat>)
    requires Loaded(b, anon)
    ensures Loaded(Prune(b, now), anon)
  {
    PruneInv(Claimed(b, anon), now, anon);
    assert ExpiredVips(Claimed(b, anon), now) == ExpiredVips(b, now);
    assert ExpiredVips(b, now) <= b.byVip.Keys;
    assert Claimed(Prune(b, now), anon) == Prune(Claimed(b, anon), now);
  }

  lemma MakeRecLoaded(b: Book, hwid: string, anon: set<nat>)
    requires Loaded(b, anon) && hwid != ""
    ensures Loaded(b.(recs := b.recs[hwid := RecOf(b, hwid)]), anon)
  {
    MakeRecInv(Claimed(b, anon), hwid, anon);
    SamePool(b, b.(recs := b.recs[hwid := RecOf(b, hwid)]), anon);
  }

  lemma RenewLoaded(b: Book, h: string, name: string, now: int, anon: set<nat>)
    requires Loaded(b, anon) && h in b.recs && b.recs[h].vip != 0
    ensures Loaded(Renew(b, h, name, now).0, anon)
  {
    RenewInv(Claimed(b, anon), h, name, now, anon);
    SamePool(b, Renew(b, h, name, now).0, anon);
  }

  lemma SetIPLoaded(b: Book, hwid: string, vip: nat, anon: set<nat>)
    requires Loaded(b, anon)
    ensures Loaded(SetIP(b, hwid, vip).0, anon)
  {
    var c := SetIP(b, hwid, vip).0;
    if c != b {
      assert vip !in b.byVip.Keys && vip !in b.pool.used;
      SetIPInv(Claimed(b, anon), hwid, vip, anon);
      var was := b.recs[hwid].vip;
      assert was != 0 ==> was in b.byVip.Keys;
      assert SetIP(Claimed(b, anon), hwid, vip).0.pool.used == c.byVip.Keys + anon;
    }
  }

  // ----- Who is given which address -----

  /** The table an address is taken from. */
  function Table(b: Book, hwid: string, now: int): Book { if hwid == "" then b else Prune(b, now) }

  /** A connection that is not coming back to an address on record. */
  predicate IsFresh(b: Book, hwid: string, now: int) { hwid == "" || RecOf(Prune(b, now), hwid).vip == 0 }

  /** The connection is fresh, and the lowest address free in the pool is on record. */
  predicate TakesLeased(b: Book, hwid: string, now: int) {
    IsFresh(b, hwid, now) &&
    var p := Table(b, hwid, now).pool;
    var v := FirstFree(p.used, p.start, p.end);
    v.Some? && v.value in Table(b, hwid, now).byVip
  }

  lemma PickReclaims(b: Book, h: string, anon: set<nat>)
    requires Loaded(b, anon) && h in b.recs && b.recs[h].vip != 0
    ensures Pick(b, h) == (b.(pool := b.pool.(used := b.pool.used + {b.recs[h].vip})), true)
    ensures Loaded(Pick(b, h).0, anon)
  {
    var c := b.(pool := b.pool.(used := b.pool.used + {b.recs[h].vip}));
    assert b.recs[h].vip in b.byVip.Keys;
    assert b.recs[h].vip in b.pool.used ==> c == b;
    assert Claimed(c, anon) == Claimed(b, anon);
  }

  /** A device without an address gets the lowest free one; that keeps the tables right unless
      the address is on record. */
  lemma PickFresh(b: Book, h: string, anon: set<nat>)
    requires Loaded(b, anon) && h in b.recs && b.recs[h].vip == 0
    ensures var (c, ok), v := Pick(b, h), FirstFree(b.pool.used, b.pool.start, b.pool.end);
      && ok == v.Some? && (!ok ==> c == b)
      && (ok ==> v.value !in anon && v.value != 0)
      && (ok ==> c == Grant(b, h, v.value, b.pool.(used := b.pool.used + {v.value})))
      && (ok && v.value !in b.byVip ==> Loaded(c, anon))
  {
    var v := FirstFree(b.pool.used, b.pool.start, b.pool.end);
    if v.Some? && v.value !in b.byVip {
      var a := Claimed(b, anon);
      assert v.value !in b.byVip.Keys;
      GrantInv(a, h, v.value, a.pool.(used := a.pool.used + {v.value}), anon);
      var c := Pick(b, h).0;
      assert Claimed(c, anon) == Grant(a, h, v.value, a.pool.(used := a.pool.used + {v.value}));
    }
  }

  /** The book of `Assign` before the address is settled. */
  function Ready(b: Book, hwid: string, now: int): Book {
    var p := Prune(b, now);
    p.(recs := p.recs[hwid := RecOf(p, hwid)])
  }

  lemma ReadyLoaded(b: Book, hwid: string, now: int, anon: set<nat>)
    requires Loaded(b, anon) && hwid != ""
    ensures Loaded(Ready(b, hwid, now), anon)
  {
    PruneLoaded(b, now, anon);
    MakeRecLoaded(Prune(b, now), hwid, anon);
  }

  /** An owner that comes back gets its address and claims it in the pool. */
  lemma OwnerReclaims(b: Book, h: string, name: string, now: int, anon: set<nat>)
    requires Loaded(b, anon) && h in b.recs && b.recs[h].vip != 0 && !Expired(b.recs[h], now)
    ensures var (c, r) := Assign(b, h, name, now);
      && Loaded(c, anon) && r == Some((b.recs[h].vip, now + LEASE))
      && c.byVip == Prune(b, now).byVip
      && c.pool.used == Prune(b, now).pool.used + {b.recs[h].vip}
  {
    var q := Ready(b, h, now);
    assert h != "";
    ReadyLoaded(b, h, now, anon);
    PickReclaims(q, h, anon);
    RenewLoaded(Pick(q, h).0, h, name, now, anon);
  }

  /** A device: its address is also another device's exactly when it was fresh and the lowest
      free address is on record; otherwise the tables stay right. */
  lemma AssignAfterRestart(b: Book, hwid: string, name: string, now: int, anon: set<nat>)
    requires Loaded(b, anon) && hwid != ""
    ensures var (c, r) := Assign(b, hwid, name, now);
      && (!TakesLeased(b, hwid, now) ==> Loaded(c, anon))
      && (r.Some? ==> r.value.0 != 0 && r.value.0 !in anon && hwid in c.recs && c.recs[hwid].vip == r.value.0)
      && (TakesLeased(b, hwid, now) ==> r.Some? && Shared(c, hwid, r.value.0))
  {
    var q := Ready(b, hwid, now);
    ReadyLoaded(b, hwid, now, anon);
    if q.recs[hwid].vip == 0 {
      PickFresh(q, hwid, anon);
      if TakesLeased(b, hwid, now) { LeasedIsShared(b, hwid, name, now, anon); }
    } else {
      PickReclaims(q, hwid, anon);
      assert q.recs[hwid].vip in q.byVip.Keys;
    }
    var (c, ok) := Pick(q, hwid);
    if ok && !TakesLeased(b, hwid, now) { RenewLoaded(c, hwid, name, now, anon); }
  }

  /** Address `v` is on record for a device other than `hwid`. */
  ghost predicate Shared(b: Book, hwid: string, v: nat) { exists g :: g in b.recs && g != hwid && b.recs[g].vip == v }

  lemma LeasedIsShared(b: Book, hwid: string, name: string, now: int, anon: set<nat>)
    requires Loaded(b, anon) && hwid != "" && TakesLeased(b, hwid, now)
    ensures var (c, r) := Assign(b, hwid, name, now); r.Some? && Shared(c, hwid, r.value.0)
  {
    PruneLoaded(b, now, anon);
    var p := Prune(b, now);
    var v := FirstFree(p.pool.used, p.pool.start, p.pool.end).value;
    var g := p.byVip[v];
    assert g in p.recs && p.recs[g].vip == v && g != hwid;
    var c := Assign(b, hwid, name, now).0;
    assert g in c.recs && c.recs[g].vip == v;
  }

  /** Where the tables are right no address is on record twice, or an anonymous connection's. */
  lemma LoadedIsUnique(b: Book, anon: set<nat>, g: string, h: string)
    requires Loaded(b, anon) && g in b.recs && h in b.recs && b.recs[g].vip != 0
    ensures b.recs[g].vip == b.recs[h].vip ==> g == h
    ensures b.recs[g].vip !in anon
  {
    assert b.recs[g].vip in b.byVip.Keys;
    if b.recs[g].vip == b.recs[h].vip { NoSharedAddress(b, g, h); }
  }

  /** Any connection, with or without a device identifier: the address it is handed is on record
      for another device exactly when it is fresh and the lowest free address is on record. */
  lemma FreshAddressCollides(b: Book, hwid: string, name: string, now: int, anon: set<nat>)
    requires Loaded(b, anon)
    ensures var (c, r) := AllocVip(b, hwid, name, now);
      r.Some? && Shared(c, hwid, r.value) <==> TakesLeased(b, hwid, now)
  {
    var (c, r) := AllocVip(b, hwid, name, now);
    if hwid == "" {
      if r.Some? && r.value in b.byVip {
        var g := b.byVip[r.value];
        assert g in c.recs && g != hwid && c.recs[g].vip == r.value;
      }
      if r.Some? && Shared(c, hwid, r.value) {
        assert r.value != 0;
      }
    } else {
      AssignAfterRestart(b, hwid, name, now, anon);
      if r.Some? && !TakesLeased(b, hwid, now) {
        forall g | g in c.recs && g != hwid ensures c.recs[g].vip != r.value {
          if c.recs[g].vip == r.value { LoadedIsUnique(c, anon, g, hwid); }
        }
      }
    }
  }

  /** After such a collision the owner, coming back, is handed the address too. */
  lemma OwnerKeepsItToo(b: Book, hwid: string, name: string, now: int, g: string, owner: string, later: int,
                        anon: set<nat>)
    requires Loaded(b, anon) && hwid != g && g in b.recs && b.recs[g].vip != 0
    requires !Expired(b.recs[g], now) && !Expired(b.recs[g], later)
    requires AllocVip(b, hwid, name, now).1 == Some(b.recs[g].vip)
    ensures Assign(AllocVip(b, hwid, name, now).0, g, owner, later).1 == Some((b.recs[g].vip, later + LEASE))
  {
    var c := AllocVip(b, hwid, name, now).0;
    assert b.pool.InRange(b.recs[g].vip);
    if hwid != "" {
      assert Prune(b, now).recs[g] == b.recs[g];
      AssignChangesOneRecord(b, hwid, name, now);
      AssignKeepsRange(b, hwid, name, now);
    }
    assert c.recs[g] == b.recs[g];
    assert Prune(c, later).recs[g] == b.recs[g];
  }

  lemma AssignKeepsRange(b: Book, hwid: string, name: string, now: int)
    ensures var c := Assign(b, hwid, name, now).0; c.pool.start == b.pool.start && c.pool.end == b.pool.end
  {
  }
}
