/** The device table as a value, and what its operations compute (internal/server/devices.go). */
module Devices {
  import opened Common
  import opened IpPool
  import Forward

  const LEASE: int := 2_678_400_000_000_000 // 31 days, in nanoseconds

  /** A device record; the address 0 means none, and no expiry is the zero time. */
  datatype Rec = Rec(name: string, vip: nat, expire: Option<int>, forward: seq<string>,
                     deviceId: string, deviceKey: string, blocked: bool)

  const NEW_REC: Rec := Rec("", 0, None, [], "", "", false)

  /** The three indices and the pool the addresses come from. */
  datatype Book = Book(recs: map<string, Rec>, byVip: map<nat, string>, byId: map<string, string>, pool: Pool)

  function RecOf(b: Book, hwid: string): Rec { if hwid in b.recs then b.recs[hwid] else NEW_REC }

  // ----- Leases -----

  predicate Expired(r: Rec, now: int) { r.vip != 0 && r.expire.Some? && r.expire.value <= now }

  function PruneRec(r: Rec, now: int): Rec { if Expired(r, now) then r.(vip := 0, expire := None) else r }

  function ExpiredVips(b: Book, now: int): set<nat> {
    set h | h in b.recs && Expired(b.recs[h], now) :: b.recs[h].vip
  }

  /** `pruneLocked`. */
  function Prune(b: Book, now: int): Book {
    Book(map h | h in b.recs :: PruneRec(b.recs[h], now), b.byVip - ExpiredVips(b, now), b.byId,
         b.pool.(used := b.pool.used - ExpiredVips(b, now)))
  }

  /** The record, made if missing, has address `vip`, held in the pool: name it and renew. */
  function Renew(b: Book, hwid: string, name: string, now: int): (Book, Option<(nat, int)>)
    requires hwid in b.recs
  {
    var r := b.recs[hwid].(name := name, expire := Some(now + LEASE));
    (b.(recs := b.recs[hwid := r]), Some((r.vip, now + LEASE)))
  }

  /** Give `hwid` the address `vip`, which is now in the pool. */
  function Grant(b: Book, hwid: string, vip: nat, pool: Pool): Book
    requires hwid in b.recs
  {
    b.(recs := b.recs[hwid := b.recs[hwid].(vip := vip)], byVip := b.byVip[vip := hwid], pool := pool)
  }

  /** The switch of `Assign`: keep the address, claim it back, or take another. */
  function Pick(b: Book, hwid: string): (Book, bool)
    requires hwid in b.recs
  {
    var vip := b.recs[hwid].vip;
    if vip == 0 then
      var (pool, v) := TakeFree(b.pool);
      if v.None? then (b, false) else (Grant(b, hwid, v.value, pool), true)
    else if vip in b.pool.used then (b, true)
    else
      var (pool, ok) := TakeAt(b.pool, vip);
      if ok then (b.(pool := pool), true)
      else
        var (pool, v) := TakeFree(b.pool);
        if v.None? then (b, false) else (Grant(b.(byVip := b.byVip - {vip}), hwid, v.value, pool), true)
  }

  /** `Assign`: prune, make the record if missing, settle its address, name it and renew. */
  function Assign(b0: Book, hwid: string, name: string, now: int): (Book, Option<(nat, int)>) {
    var p := Prune(b0, now);
    var b := p.(recs := p.recs[hwid := RecOf(p, hwid)]);
    var (c, ok) := Pick(b, hwid);
    if ok then Renew(c, hwid, name, now) else (c, None)
  }

  /** `SetIP`. */
  function SetIP(b: Book, hwid: string, vip: nat): (Book, bool) {
    if hwid == "" || hwid !in b.recs || !b.pool.InRange(vip) then (b, false)
    else if vip in b.byVip && b.byVip[vip] != hwid then (b, false)
    else if b.recs[hwid].vip == vip then (b, true)
    else
      var (pool, ok) := TakeAt(b.pool, vip);
      if !ok then (b, false)
      else
        var was := b.recs[hwid].vip;
        var c := if was != 0 then b.(byVip := b.byVip - {was}, pool := pool.(used := pool.used - {was}))
                 else b.(pool := pool);
        (Grant(c, hwid, vip, c.pool), true)
  }

  /** `SetForward`. */
  function SetForward(b: Book, hwid: string, rules: seq<string>): (Book, bool) {
    if hwid == "" || !Forward.Accepts(rules) then (b, false)
    else (b.(recs := b.recs[hwid := RecOf(b, hwid).(forward := rules)]), true)
  }

  // ----- Credentials -----

  /** `SetCredential`. */
  function SetCredential(b: Book, hwid: string, name: string, id: string, key: string): (Book, bool) {
    if hwid == "" || id == "" || key == "" then (b, false)
    else if id in b.byId && b.byId[id] != hwid then (b, false)
    else
      var r := RecOf(b, hwid);
      if r.deviceId != "" then (b.(recs := b.recs[hwid := r]), false)
      else
        var r' := r.(deviceId := id, deviceKey := key, name := if name != "" then name else r.name);
        (b.(recs := b.recs[hwid := r'], byId := b.byId[id := hwid]), true)
  }

  /** Take the credential of `hwid` away, if it has one. */
  function DropCredential(b: Book, hwid: string): Book
    requires hwid in b.recs
  {
    var r := b.recs[hwid];
    if r.deviceId == "" then b
    else b.(recs := b.recs[hwid := r.(deviceId := "", deviceKey := "")], byId := b.byId - {r.deviceId})
  }

  function ClearCredential(b: Book, hwid: string): (Book, bool) {
    if hwid == "" || hwid !in b.recs || b.recs[hwid].deviceId == "" then (b, false)
    else (DropCredential(b, hwid), true)
  }

  function Block(b: Book, hwid: string): (Book, bool) {
    if hwid == "" then (b, false)
    else
      var c := b.(recs := b.recs[hwid := RecOf(b, hwid)]);
      if c.recs[hwid].blocked && c.recs[hwid].deviceId == "" then (c, false)
      else
        var d := DropCredential(c, hwid);
        (d.(recs := d.recs[hwid := d.recs[hwid].(blocked := true)]), true)
  }

  function Unblock(b: Book, hwid: string): (Book, bool) {
    if hwid == "" || hwid !in b.recs || !b.recs[hwid].blocked then (b, false)
    else (b.(recs := b.recs[hwid := b.recs[hwid].(blocked := false)]), true)
  }

  function Credential(b: Book, hwid: string): Option<(string, string)> {
    if hwid == "" || hwid !in b.recs || b.recs[hwid].deviceId == "" then None
    else Some((b.recs[hwid].deviceId, b.recs[hwid].deviceKey))
  }

  function KeyById(b: Book, id: string): string {
    if id == "" || id !in b.byId || b.byId[id] == "" || b.byId[id] !in b.recs then ""
    else b.recs[b.byId[id]].deviceKey
  }

  predicate IsBlocked(b: Book, hwid: string) { hwid != "" && hwid in b.recs && b.recs[hwid].blocked }

  /** `handleRegister`, one atomic step: refuse a blocked device, reuse its credential, or give
      it the freshly generated `id` and `key`. */
  function HandleRegister(b: Book, hwid: string, name: string, id: string, key: string):
    (Book, Option<(string, string)>)
  {
    if hwid == "" || IsBlocked(b, hwid) then (b, None)
    else if Credential(b, hwid).Some? then (b, Credential(b, hwid))
    else
      var (c, ok) := SetCredential(b, hwid, name, id, key);
      if ok then (c, Some((id, key))) else (c, Credential(c, hwid))
  }
}
