/** The server's session maps updated in place (internal/server/server.go). */
module Server {
  import opened Common
  import opened IpPool
  import opened Devices
  import opened Sessions
  import DeviceTable

  /** The maps of a server.  A connection is a handle into `conns`, where its fields live. */
  class Server {
    const table: DeviceTable.DeviceTable
    const pool: IPPool
    var conns: map<nat, Conn>
    var devices: map<nat, nat>
    var byName: map<string, nat>

    constructor ()
      ensures fresh(table) && fresh(pool)
      ensures Model() == Sessions.EMPTY
    {
      table := new DeviceTable.DeviceTable();
      pool := new IPPool();
      conns, devices, byName := map[], map[], map[];
    }

    /** The session tables on top of the device table and the pool. */
    function Model(): Sys
      reads this, table, pool
    {
      Sys(table.Model(pool), conns, devices, byName)
    }

    /** The rename loop: append a counter to a name that is taken. */
    method FreeName(name: string) returns (shown: string)
      ensures shown == PickName(byName.Keys, name)
      ensures shown !in byName
    {
      if name !in byName { return name; }
      var i := 2;
      shown := Variant(name, i);
      while shown in byName
        invariant i >= 2 && shown == Variant(name, i)
        invariant Tried(byName.Keys, name, i)
        invariant Search(byName.Keys, name, i) == Search(byName.Keys, name, 2)
        decreases |byName.Keys| + 2 - i
      {
        TriedBound(byName.Keys, name, i + 1);
        i := i + 1;
        shown := Variant(name, i);
      }
    }

    method AllocVip(hwid: string, name: string, now: int) returns (vip: Option<nat>)
      modifies table, pool
      ensures (table.Model(pool), vip) == Sessions.AllocVip(old(table.Model(pool)), hwid, name, now)
    {
      if hwid == "" {
        vip := pool.Alloc();
      } else {
        var r := table.Assign(hwid, name, pool, now);
        vip := if r.Some? then Some(r.value.0) else None;
      }
    }

    /** `register`; `ousted` is the connection to close because this one takes its address. */
    method Register(dev: nat, name: string, hwid: string, now: int) returns (vip: Option<nat>, ousted: Option<nat>)
      modifies this, table, pool
      ensures Model() == Sessions.Register(old(Model()), dev, name, hwid, now)
      ensures vip == Sessions.AllocVip(old(table.Model(pool)), hwid, name, now).1
      ensures ousted.Some? <==> vip.Some? && vip.value in old(devices) && old(devices)[vip.value] != dev
      ensures ousted.Some? ==> ousted.value == old(devices)[vip.value]
    {
      ousted := None;
      vip := AllocVip(hwid, name, now);
      if vip.None? { return; }
      var shown := FreeName(name);
      if vip.value in devices && devices[vip.value] != dev {
        ousted := Some(devices[vip.value]);
      }
      conns := conns[dev := Conn(shown, vip.value, hwid)];
      devices := devices[vip.value := dev];
      byName := byName[shown := dev];
    }

    method RemoveDevice(dev: nat)
      requires dev in conns
      modifies this, pool
      ensures Model() == Sessions.Remove(old(Model()), dev)
    {
      var d := conns[dev];
      if d.vip in devices && devices[d.vip] == dev {
        devices := devices - {d.vip};
      }
      if d.name in byName && byName[d.name] == dev {
        byName := byName - {d.name};
      }
      var takenOver := d.vip in devices;
      if d.vip != 0 && d.hwid == "" && !takenOver {
        pool.Release(d.vip);
      }
      conns := conns - {dev};
    }
  }
}
