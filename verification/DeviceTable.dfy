/** The device table with its three maps updated in place (internal/server/devices.go). */
module DeviceTable {
  import opened Common
  import opened IpPool
  import opened Devices
  import Forward

  /** The devices among `hs` whose lease has run out. */
  ghost function ExpiredIn(recs: map<string, Rec>, hs: set<string>, now: int): set<string> {
    set h | h in hs && h in recs && Expired(recs[h], now)
  }

  ghost function VipsIn(recs: map<string, Rec>, hs: set<string>, now: int): set<nat> {
    set h | h in ExpiredIn(recs, hs, now) :: recs[h].vip
  }

  /** The address a record gives back. */
  function Gone(r: Rec, now: int): set<nat> { if Expired(r, now) then {r.vip} else {} }

  lemma OneMore(recs: map<string, Rec>, done: set<string>, h: string, now: int)
    requires h in recs && h !in done
    ensures VipsIn(recs, done + {h}, now) == VipsIn(recs, done, now) + Gone(recs[h], now)
    ensures |ExpiredIn(recs, done + {h}, now)| == |ExpiredIn(recs, done, now)| + |Gone(recs[h], now)|
  {
    if Expired(recs[h], now) {
      assert ExpiredIn(recs, done + {h}, now) == ExpiredIn(recs, done, now) + {h};
    } else {
      assert ExpiredIn(recs, done + {h}, now) == ExpiredIn(recs, done, now);
    }
  }

  ghost function VisitRecs(recs: map<string, Rec>, done: set<string>, now: int): map<string, Rec> {
    map h | h in recs :: if h in done then PruneRec(recs[h], now) else recs[h]
  }

  lemma VisitOneRec(recs: map<string, Rec>, done: set<string>, h: string, now: int)
    requires h in recs && h !in done
    ensures VisitRecs(recs, done, now)[h] == recs[h]
    ensures VisitRecs(recs, done + {h}, now) == VisitRecs(recs, done, now)[h := PruneRec(recs[h], now)]
  {
  }

  lemma MinusMore(m: map<nat, string>, u: set<nat>, vips: set<nat>, more: set<nat>)
    ensures (m - vips) - more == m - (vips + more) && (u - vips) - more == u - (vips + more)
  {
  }

  lemma VisitedAll(b: Book, now: int)
    ensures Prune(b, now) == Book(VisitRecs(b.recs, b.recs.Keys, now),
                                  b.byVip - VipsIn(b.recs, b.recs.Keys, now), b.byId,
                                  b.pool.(used := b.pool.used - VipsIn(b.recs, b.recs.Keys, now)))
  {
    assert VipsIn(b.recs, b.recs.Keys, now) == ExpiredVips(b, now);
    assert VisitRecs(b.recs, b.recs.Keys, now) == Prune(b, now).recs;
  }

  class DeviceTable {
    var recs: map<string, Rec>
    var byVip: map<nat, string>
    var byId: map<string, string>

    constructor ()
      ensures recs == map[] && byVip == map[] && byId == map[]
    {
      recs, byVip, byId := map[], map[], map[];
    }

    /** The table together with a pool. */
    function Model(pool: IPPool): Book
      reads this, pool
    {
      Book(recs, byVip, byId, pool.Value())
    }

    /** One turn of the loop: take the record's address back if its lease has run out. */
    method PruneOne(h: string, now: int, pool: IPPool) returns (n: nat)
      requires h in recs
      modifies this`recs, this`byVip, pool
      ensures recs == old(recs)[h := PruneRec(old(recs)[h], now)] && n == |Gone(old(recs)[h], now)|
      ensures byVip == old(byVip) - Gone(old(recs)[h], now)
      ensures pool.used == old(pool.used) - Gone(old(recs)[h], now)
    {
      n := 0;
      if Expired(recs[h], now) {
        pool.Release(recs[h].vip);
        byVip := byVip - {recs[h].vip};
        recs := recs[h := recs[h].(vip := 0, expire := None)];
        n := 1;
      }
    }

    /** The loop of `pruneLocked`: visits the records in an arbitrary order. */
    method PruneLoop(now: int, pool: IPPool) returns (n: nat)
      modifies this`recs, this`byVip, pool
      ensures recs == VisitRecs(old(recs), old(recs).Keys, now)
      ensures byVip == old(byVip) - VipsIn(old(recs), old(recs).Keys, now)
      ensures pool.used == old(pool.used) - VipsIn(old(recs), old(recs).Keys, now)
      ensures n == |ExpiredIn(old(recs), old(recs).Keys, now)|
    {
      ghost var rs, m, u := recs, byVip, pool.used;
      var todo := recs.Keys;
      ghost var done: set<string> := {};
      n := 0;
      while todo != {}
        invariant todo !! done && todo + done == rs.Keys
        invariant recs == VisitRecs(rs, done, now)
        invariant byVip == m - VipsIn(rs, done, now) && pool.used == u - VipsIn(rs, done, now)
        invariant n == |ExpiredIn(rs, done, now)|
        decreases |todo|
      {
        var h :| h in todo;
        OneMore(rs, done, h, now);
        VisitOneRec(rs, done, h, now);
        MinusMore(m, u, VipsIn(rs, done, now), Gone(rs[h], now));
        var k := PruneOne(h, now, pool);
        n := n + k;
        todo := todo - {h};
        done := done + {h};
      }
      assert done == rs.Keys;
    }

    method PruneLocked(now: int, pool: IPPool) returns (n: nat)
      modifies this`recs, this`byVip, pool
      ensures Model(pool) == Devices.Prune(old(Model(pool)), now)
      ensures n == |ExpiredIn(old(recs), old(recs).Keys, now)|
    {
      ghost var b := Model(pool);
      n := PruneLoop(now, pool);
      VisitedAll(b, now);
    }

    method Prune(now: int, pool: IPPool) returns (n: nat)
      modifies this`recs, this`byVip, pool
      ensures Model(pool) == Devices.Prune(old(Model(pool)), now)
    {
      n := PruneLocked(now, pool);
    }

    method Pick(hwid: string, pool: IPPool) returns (ok: bool)
      requires hwid in recs
      modifies this`recs, this`byVip, pool
      ensures (Model(pool), ok) == Devices.Pick(old(Model(pool)), hwid)
    {
      if recs[hwid].vip == 0 {
        var vip := pool.Alloc();
        if vip.None? { return false; }
        recs := recs[hwid := recs[hwid].(vip := vip.value)];
        byVip := byVip[vip.value := hwid];
      } else if !pool.Held(recs[hwid].vip) {
        var want := recs[hwid].vip;
        ok := pool.AllocAt(want);
        if !ok {
          var vip := pool.Alloc();
          if vip.None? { return false; }
          byVip := byVip - {want};
          recs := recs[hwid := recs[hwid].(vip := vip.value)];
          byVip := byVip[vip.value := hwid];
        }
      }
      ok := true;
    }

    method Assign(hwid: string, name: string, pool: IPPool, now: int) returns (r: Option<(nat, int)>)
      modifies this`recs, this`byVip, pool
      ensures (Model(pool), r) == Devices.Assign(old(Model(pool)), hwid, name, now)
    {
      var _ := PruneLocked(now, pool);
      ghost var p := Model(pool);
      if hwid !in recs {
        recs := recs[hwid := NEW_REC];
      }
      assert recs == p.recs[hwid := RecOf(p, hwid)];
      var ok := Pick(hwid, pool);
      if !ok { return None; }
      ghost var c := Model(pool);
      recs := recs[hwid := recs[hwid].(name := name)];
      recs := recs[hwid := recs[hwid].(expire := Some(now + LEASE))];
      assert recs == c.recs[hwid := recs[hwid]];
      r := Some((recs[hwid].vip, now + LEASE));
    }

    method SetIP(hwid: string, vip: nat, pool: IPPool) returns (ok: bool)
      modifies this`recs, this`byVip, pool
      ensures (Model(pool), ok) == Devices.SetIP(old(Model(pool)), hwid, vip)
    {
      if hwid == "" || hwid !in recs { return false; }
      if !pool.InRange(vip) { return false; }
      if vip in byVip && byVip[vip] != hwid { return false; }
      if recs[hwid].vip == vip { return true; }
      ok := pool.AllocAt(vip);
      if !ok { return; }
      if recs[hwid].vip != 0 {
        pool.Release(recs[hwid].vip);
        byVip := byVip - {recs[hwid].vip};
      }
      recs := recs[hwid := recs[hwid].(vip := vip)];
      byVip := byVip[vip := hwid];
    }

    method StoreForward(hwid: string, rules: seq<string>)
      modifies this`recs
      ensures recs == old(recs)[hwid := (if hwid in old(recs) then old(recs)[hwid] else NEW_REC).(forward := rules)]
    {
      if hwid !in recs {
        recs := recs[hwid := NEW_REC];
      }
      recs := recs[hwid := recs[hwid].(forward := rules)];
    }

    method SetForward(hwid: string, rules: seq<string>, ghost pool: IPPool) returns (ok: bool)
      modifies this`recs
      ensures (Model(pool), ok) == Devices.SetForward(old(Model(pool)), hwid, rules)
    {
      if hwid == "" { return false; }
      var parsed := Forward.ParseSet(rules);
      if parsed.None? { return false; }
      StoreForward(hwid, rules);
      ok := true;
    }

    method StoreCredential(hwid: string, name: string, id: string, key: string)
      requires hwid in recs
      modifies this`recs, this`byId
      ensures byId == old(byId)[id := hwid]
      ensures recs == old(recs)[hwid := old(recs)[hwid].(deviceId := id, deviceKey := key,
                                                        name := if name != "" then name else old(recs)[hwid].name)]
    {
      recs := recs[hwid := recs[hwid].(deviceId := id)];
      recs := recs[hwid := recs[hwid].(deviceKey := key)];
      if name != "" {
        recs := recs[hwid := recs[hwid].(name := name)];
      }
      byId := byId[id := hwid];
    }

    method SetCredential(hwid: string, name: string, id: string, key: string, ghost pool: IPPool) returns (ok: bool)
      modifies this`recs, this`byId
      ensures (Model(pool), ok) == Devices.SetCredential(old(Model(pool)), hwid, name, id, key)
    {
      if hwid == "" || id == "" || key == "" { return false; }
      if id in byId && byId[id] != hwid { return false; }
      if hwid !in recs {
        recs := recs[hwid := NEW_REC];
      }
      assert recs == old(recs)[hwid := RecOf(old(Model(pool)), hwid)];
      if recs[hwid].deviceId != "" { return false; }
      StoreCredential(hwid, name, id, key);
      assert recs == old(recs)[hwid := recs[hwid]];
      ok := true;
    }

    method ClearCredential(hwid: string, ghost pool: IPPool) returns (ok: bool)
      modifies this`recs, this`byId
      ensures (Model(pool), ok) == Devices.ClearCredential(old(Model(pool)), hwid)
    {
      if hwid == "" || hwid !in recs || recs[hwid].deviceId == "" { return false; }
      byId := byId - {recs[hwid].deviceId};
      recs := recs[hwid := recs[hwid].(deviceId := "", deviceKey := "")];
      ok := true;
    }

    method Block(hwid: string, ghost pool: IPPool) returns (ok: bool)
      modifies this`recs, this`byId
      ensures (Model(pool), ok) == Devices.Block(old(Model(pool)), hwid)
    {
      if hwid == "" { return false; }
      if hwid !in recs {
        recs := recs[hwid := NEW_REC];
      }
      assert recs == old(recs)[hwid := RecOf(old(Model(pool)), hwid)];
      if recs[hwid].blocked && recs[hwid].deviceId == "" { return false; }
      if recs[hwid].deviceId != "" {
        byId := byId - {recs[hwid].deviceId};
        recs := recs[hwid := recs[hwid].(deviceId := "", deviceKey := "")];
      }
      recs := recs[hwid := recs[hwid].(blocked := true)];
      ok := true;
    }

    method Unblock(hwid: string, ghost pool: IPPool) returns (ok: bool)
      modifies this`recs
      ensures (Model(pool), ok) == Devices.Unblock(old(Model(pool)), hwid)
    {
      if hwid == "" || hwid !in recs || !recs[hwid].blocked { return false; }
      recs := recs[hwid := recs[hwid].(blocked := false)];
      ok := true;
    }
  }
}
