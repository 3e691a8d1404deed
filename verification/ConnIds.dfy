/** Connection identifiers of a mux (`getId`, nps-master/lib/nps_mux/mux.go). */
module ConnIds {
  const MAX_INT32: nat := 0x7fff_ffff
  const LAST: nat := MAX_INT32 - 9999     // the counter starts over from here

  /** The identifier tried after `id`. */
  function Next(id: nat): (n: nat)
    ensures id <= LAST ==> 1 <= n <= LAST
  {
    if MAX_INT32 < id + 10000 then 1 else id + 1
  }

  function Nth(id: nat, k: nat): (n: nat)
    requires id <= LAST
    ensures n <= LAST && (k > 0 ==> n > 0)
    decreases k
  {
    if k == 0 then id else Nth(Next(id), k - 1)
  }

  /** How many tries away an identifier is. */
  function Distance(id: nat, target: nat): (d: nat)
    requires id <= LAST && 1 <= target <= LAST
    ensures d > 0
  {
    if id < target then target - id else LAST - id + target
  }

  /** `r` is tried `k`-th after `id`, and everything tried before it is live. */
  predicate FoundAfter(id: nat, k: nat, r: nat, live: set<nat>)
    requires id <= LAST
  {
    k > 0 && r == Nth(id, k) && r !in live && forall j | 0 < j < k :: Nth(id, j) in live
  }

  class Ids {
    var id: nat
    var live: set<nat>                     // the keys of connMap

    constructor ()
      ensures id == 0 && live == {}
    {
      id, live := 0, {};
    }

    /** Returns an identifier no live connection has, the first such after the counter, and
        terminates while one of the usable identifiers is free. */
    method GetId(ghost free: nat) returns (r: nat)
      requires id <= LAST && 1 <= free <= LAST && free !in live
      modifies this`id
      ensures id == r && 1 <= r <= LAST && r !in live
      ensures exists k: nat :: FoundAfter(old(id), k, r, live)
      decreases Distance(id, free)
    {
      ghost var was := id;
      if MAX_INT32 < id + 10000 {
        id := 0;
      }
      id := id + 1;
      r := id;
      assert Nth(was, 1) == Nth(Next(was), 0) == r;
      if r !in live {
        assert FoundAfter(was, 1, r, live);
      } else {
        r := GetId(free);
        ghost var k: nat :| FoundAfter(Next(was), k, r, live);
        forall j | 0 < j < k + 1 ensures Nth(was, j) in live {
          if j > 1 { assert Nth(was, j) == Nth(Next(was), j - 1); }
        }
        assert FoundAfter(was, k + 1, r, live);
      }
    }
  }
}
