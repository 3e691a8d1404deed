/** The write queue of a mux (nps-master/lib/nps_mux/queue.go): three first-in first-out
    classes and a wrapping 8-bit counter that keeps the lowest class from starving.  Each
    class is a chain taken as a sequence, its pushes and pops atomic. */
module PriorityQueue {
  import opened Common

  const MAX_STARVING: nat := 8

  // message flags (mux.go)
  const PING: nat := 0
  const NEW_CONN_OK: nat := 1
  const NEW_CONN_FAIL: nat := 2
  const NEW_CONN: nat := 6
  const PING_RETURN: nat := 8

  datatype Pack = Pack(flag: nat, tag: int)
  datatype Rank = Highest | Middle | Lowest

  function RankOf(flag: nat): Rank {
    if flag == PING || flag == PING_RETURN then Highest
    else if flag == NEW_CONN || flag == NEW_CONN_OK || flag == NEW_CONN_FAIL then Middle
    else Lowest
  }

  type uint8 = n: int | 0 <= n < 256

  /** The value of a queue. */
  datatype Contents = Contents(highest: seq<Pack>, middle: seq<Pack>, lowest: seq<Pack>, starving: uint8) {
    function Of(r: Rank): seq<Pack> {
      match r case Highest => highest case Middle => middle case Lowest => lowest
    }
    predicate Empty() { highest == [] && middle == [] && lowest == [] }
  }

  function Pushed(q: Contents, p: Pack): Contents {
    match RankOf(p.flag)
    case Highest => q.(highest := q.highest + [p])
    case Middle => q.(middle := q.middle + [p])
    case Lowest => q.(lowest := q.lowest + [p])
  }

  function Inc(n: uint8): uint8 { if n == 255 then 0 else n + 1 }

  /** The class `TryPop` serves, if any. */
  function Served(q: Contents): Option<Rank> {
    if q.highest != [] then Some(Highest)
    else if q.starving < MAX_STARVING && q.middle != [] then Some(Middle)
    else if q.lowest != [] then Some(Lowest)
    else if q.starving > 0 && q.middle != [] then Some(Middle)
    else None
  }

  function Popped(q: Contents): Contents {
    match Served(q)
    case None => q
    case Some(Highest) => q.(highest := q.highest[1..])
    case Some(Middle) => q.(middle := q.middle[1..], starving := Inc(q.starving))
    case Some(Lowest) => q.(lowest := q.lowest[1..], starving := q.starving / 2)
  }

  class PriorityQueue {
    var highest: seq<Pack>
    var middle: seq<Pack>
    var lowest: seq<Pack>
    var starving: uint8

    constructor ()
      ensures Value() == Contents([], [], [], 0)
    {
      highest, middle, lowest, starving := [], [], [], 0;
    }

    function Value(): Contents
      reads this
    {
      Contents(highest, middle, lowest, starving)
    }

    method Push(p: Pack)
      modifies this
      ensures Value() == Pushed(old(Value()), p)
    {
      if p.flag == PING || p.flag == PING_RETURN {
        highest := highest + [p];
      } else if p.flag == NEW_CONN || p.flag == NEW_CONN_OK || p.flag == NEW_CONN_FAIL {
        middle := middle + [p];
      } else {
        lowest := lowest + [p];
      }
    }

    /** Returns nil exactly when every class is empty, and otherwise the oldest message of
        the class served. */
    method TryPop() returns (r: Option<Pack>)
      modifies this
      ensures r.None? <==> old(Value()).Empty()
      ensures Value() == Popped(old(Value()))
      ensures r.Some? ==> Served(old(Value())).Some? && r.value == old(Value()).Of(Served(old(Value())).value)[0]
    {
      if highest != [] {
        r, highest := Some(highest[0]), highest[1..];
        return;
      }
      if starving < MAX_STARVING {
        if middle != [] {
          r, middle := Some(middle[0]), middle[1..];
          starving := Inc(starving);
          return;
        }
      }
      if lowest != [] {
        r, lowest := Some(lowest[0]), lowest[1..];
        if starving > 0 {
          starving := starving / 2;
        }
        return;
      }
      if starving > 0 {
        if middle != [] {
          r, middle := Some(middle[0]), middle[1..];
          starving := Inc(starving);
          return;
        }
      }
      return None;
    }
  }

  // ----- Runs of pushes and pops -----

  datatype Event = Push(p: Pack) | TryPop

  function After(q: Contents, e: Event): Contents {
    match e case Push(p) => Pushed(q, p) case TryPop => Popped(q)
  }

  function Exec(q: Contents, es: seq<Event>): Contents
    decreases |es|
  {
    if es == [] then q else Exec(After(q, es[0]), es[1..])
  }

  /** The messages of class `r` pushed in a run, and those popped, in order. */
  function PushedOf(es: seq<Event>, r: Rank): seq<Pack> {
    if es == [] then []
    else (if es[0].Push? && RankOf(es[0].p.flag) == r then [es[0].p] else []) + PushedOf(es[1..], r)
  }

  function PoppedOf(q: Contents, es: seq<Event>, r: Rank): seq<Pack>
    decreases |es|
  {
    if es == [] then []
    else (if es[0].TryPop? && Served(q) == Some(r) then [q.Of(r)[0]] else []) + PoppedOf(After(q, es[0]), es[1..], r)
  }

  /** What one event does to one class. */
  lemma OneEvent(q: Contents, e: Event, r: Rank)
    ensures var pushed, popped := e.Push? && RankOf(e.p.flag) == r, e.TryPop? && Served(q) == Some(r);
      && (pushed ==> After(q, e).Of(r) == q.Of(r) + [e.p])
      && (popped ==> q.Of(r) != [] && After(q, e).Of(r) == q.Of(r)[1..])
      && (!pushed && !popped ==> After(q, e).Of(r) == q.Of(r))
  {
  }

  lemma Splice(a: seq<Pack>, p: seq<Pack>, ps: seq<Pack>, o: seq<Pack>, t: seq<Pack>, qs: seq<Pack>, rest: seq<Pack>)
    requires a + p == o + t && t + ps == qs + rest
    ensures a + (p + ps) == (o + qs) + rest
  {
    assert a + (p + ps) == (a + p) + ps;
    assert (o + t) + ps == o + (t + ps);
    assert o + (qs + rest) == (o + qs) + rest;
  }

  /** Each class is first-in first-out over every run. */
  lemma {:induction false} ClassIsFifo(q: Contents, es: seq<Event>, r: Rank)
    ensures q.Of(r) + PushedOf(es, r) == PoppedOf(q, es, r) + Exec(q, es).Of(r)
    decreases |es|
  {
    if es != [] {
      var t, e := After(q, es[0]), es[0];
      var ps, qs, rest := PushedOf(es[1..], r), PoppedOf(t, es[1..], r), Exec(q, es).Of(r);
      ClassIsFifo(t, es[1..], r);
      OneEvent(q, e, r);
      var p := if e.Push? && RankOf(e.p.flag) == r then [e.p] else [];
      var o := if e.TryPop? && Served(q) == Some(r) then [q.Of(r)[0]] else [];
      assert q.Of(r) + p == o + t.Of(r);
      Splice(q.Of(r), p, ps, o, t.Of(r), qs, rest);
    }
  }

  /** Every pop of the run finds the highest class empty and class `other` not, yet serves `r`. */
  predicate Favours(q: Contents, es: seq<Event>, r: Rank, other: Rank)
    decreases |es|
  {
    es == [] ||
    ((es[0].TryPop? ==> q.highest == [] && q.Of(other) != [] && Served(q) == Some(r))
     && Favours(After(q, es[0]), es[1..], r, other))
  }

  function Pops(es: seq<Event>): nat {
    if es == [] then 0 else (if es[0].TryPop? then 1 else 0) + Pops(es[1..])
  }

  /** How often the middle class can still be served before a waiting lowest one. */
  function MiddleCredit(starving: uint8): nat {
    if starving < MAX_STARVING then MAX_STARVING - starving else 0
  }

  /** At most eight consecutive pops pass over a non-empty lowest class, for every value of
      the counter and whatever is pushed in between. */
  lemma {:induction false} LowestWaitsAtMostEight(q: Contents, es: seq<Event>)
    requires Favours(q, es, Middle, Lowest)
    ensures Pops(es) <= MiddleCredit(q.starving) <= 8
    decreases |es|
  {
    if es != [] {
      LowestWaitsAtMostEight(After(q, es[0]), es[1..]);
    }
  }

  /** How many halvings bring the counter below its limit. */
  function LowestCredit(starving: uint8): nat
    decreases starving
  {
    if starving < MAX_STARVING then 0 else 1 + LowestCredit(starving / 2)
  }

  lemma {:induction false} LowestCreditBound(starving: uint8)
    ensures LowestCredit(starving) <= 5
  {
    assert starving / 2 / 2 / 2 / 2 / 2 < MAX_STARVING;
    var a := starving / 2;
    var b := a / 2;
    var c := b / 2;
    var d := c / 2;
    assert LowestCredit(d / 2) == 0;
    assert LowestCredit(d) <= 1;
    assert LowestCredit(c) <= 2;
    assert LowestCredit(b) <= 3;
    assert LowestCredit(a) <= 4;
  }

  /** At most five consecutive pops pass over a non-empty middle class for the lowest. */
  lemma {:induction false} MiddleWaitsAtMostFive(q: Contents, es: seq<Event>)
    requires Favours(q, es, Lowest, Middle)
    ensures Pops(es) <= LowestCredit(q.starving) <= 5
    decreases |es|
  {
    LowestCreditBound(q.starving);
    if es != [] {
      MiddleWaitsAtMostFive(After(q, es[0]), es[1..]);
    }
  }

  function PopRun(k: nat): seq<Event> { if k == 0 then [] else [TryPop] + PopRun(k - 1) }

  /** The bounds are reached: eight from a counter of 0, five from a counter of 255. */
  lemma {:induction false} MiddleBoundReached(q: Contents, k: nat)
    requires q.highest == [] && k <= |q.middle| && q.lowest != [] && k <= MiddleCredit(q.starving)
    ensures Favours(q, PopRun(k), Middle, Lowest) && Pops(PopRun(k)) == k
    ensures MiddleCredit(0) == 8
    decreases k
  {
    if k > 0 {
      assert PopRun(k)[1..] == PopRun(k - 1);
      MiddleBoundReached(Popped(q), k - 1);
    }
  }

  lemma {:induction false} LowestBoundReached(q: Contents, k: nat)
    requires q.highest == [] && q.middle != [] && k <= |q.lowest| && k <= LowestCredit(q.starving)
    ensures Favours(q, PopRun(k), Lowest, Middle) && Pops(PopRun(k)) == k
    ensures LowestCredit(255) == 5
    decreases k
  {
    assert LowestCredit(15) == 1 && LowestCredit(31) == 2 && LowestCredit(63) == 3 && LowestCredit(127) == 4;
    if k > 0 {
      assert PopRun(k)[1..] == PopRun(k - 1);
      LowestBoundReached(Popped(q), k - 1);
    }
  }
}
