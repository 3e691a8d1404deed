/** The pool of virtual addresses (internal/server/ipalloc.go). */
module IpPool {
  import opened Common

  const NET_ADDR: nat := 0x0A00_0000       // 10.0.0.0/8
  const HOST_SPAN: nat := 0x100_0000       // 1 << (32 - 8)

  /** The value of a pool: the allocatable range and the addresses handed out. */
  datatype Pool = Pool(start: nat, end: nat, used: set<nat>) {
    predicate InRange(ip: nat) { start <= ip <= end }
  }

  /** `NewIPPool`: everything but the network address, the server's .1 and the broadcast. */
  const FRESH_POOL: Pool := Pool(NET_ADDR + 2, NET_ADDR + HOST_SPAN - 2, {})

  /** The lowest free address from `ip` on. */
  function FirstFree(used: set<nat>, ip: nat, end: nat): (r: Option<nat>)
    ensures r.Some? ==> ip <= r.value <= end && r.value !in used && forall w | ip <= w < r.value :: w in used
    ensures r.None? ==> forall w | ip <= w <= end :: w in used
    decreases end + 1 - ip
  {
    if ip > end then None else if ip !in used then Some(ip) else FirstFree(used, ip + 1, end)
  }

  function TakeFree(p: Pool): (Pool, Option<nat>) {
    var r := FirstFree(p.used, p.start, p.end);
    (if r.Some? then p.(used := p.used + {r.value}) else p, r)
  }

  function TakeAt(p: Pool, ip: nat): (Pool, bool) {
    if p.InRange(ip) && ip !in p.used then (p.(used := p.used + {ip}), true) else (p, false)
  }

  class IPPool {
    const start: nat
    const end: nat
    var used: set<nat>

    constructor ()
      ensures Value() == FRESH_POOL
    {
      start, end, used := NET_ADDR + 2, NET_ADDR + HOST_SPAN - 2, {};
    }

    function Value(): Pool
      reads this
    {
      Pool(start, end, used)
    }

    method Alloc() returns (r: Option<nat>)
      modifies this
      ensures (Value(), r) == TakeFree(old(Value()))
    {
      var ip := start;
      while ip <= end
        invariant start <= ip && used == old(used)
        invariant FirstFree(used, start, end) == FirstFree(used, ip, end)
      {
        if ip !in used {
          used := used + {ip};
          return Some(ip);
        }
        ip := ip + 1;
      }
      return None;
    }

    method AllocAt(ip: nat) returns (ok: bool)
      modifies this
      ensures (Value(), ok) == TakeAt(old(Value()), ip)
    {
      if !(start <= ip <= end) { return false; }
      if ip in used { return false; }
      used := used + {ip};
      return true;
    }

    predicate Held(ip: nat)
      reads this
    {
      ip in used
    }

    predicate InRange(ip: nat) { start <= ip <= end }

    method Release(ip: nat)
      modifies this
      ensures Value() == old(Value()).(used := old(used) - {ip})
    {
      used := used - {ip};
    }
  }
}
