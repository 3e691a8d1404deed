/** The server's session table on top of the device table, as a step system whose steps are
    whole operations (internal/server/server.go). */
module Sessions {
  import opened Common
  import opened Text
  import opened IpPool
  import opened Devices

  /** A signalling connection; before it is registered its address is 0. */
  datatype Conn = Conn(name: string, vip: nat, hwid: string)

  const UNREGISTERED: Conn := Conn("", 0, "")

  /** `conns` are the connections not yet removed; `devices` and `byName` index them. */
  datatype Sys = Sys(book: Book, conns: map<nat, Conn>, devices: map<nat, nat>, byName: map<string, nat>)

  const EMPTY: Sys := Sys(Book(map[], map[], map[], FRESH_POOL), map[], map[], map[])

  // ----- Choosing a display name -----

  /** The `i`-th variant of a name that is taken. */
  function Variant(base: string, i: nat): string { base + " (" + Decimal(i) + ")" }

  lemma VariantInjective(base: string, i: nat, j: nat)
    requires Variant(base, i) == Variant(base, j)
    ensures i == j
  {
    var k := |base| + 2;
    var a, b := Decimal(i), Decimal(j);
    assert Variant(base, i)[k..|Variant(base, i)| - 1] == a;
    assert Variant(base, j)[k..|Variant(base, j)| - 1] == b;
    DecimalInjective(i, j);
  }

  predicate Tried(names: set<string>, base: string, i: nat) {
    forall j | 2 <= j < i :: Variant(base, j) in names
  }

  lemma {:induction false} SubsetSize<T>(a: set<T>, b: set<T>)
    requires a <= b
    ensures |a| <= |b|
  {
    if a != {} {
      var x :| x in a;
      SubsetSize(a - {x}, b - {x});
    }
  }

  ghost function Variants(base: string, i: nat): set<string> {
    if i <= 2 then {} else Variants(base, i - 1) + {Variant(base, i - 1)}
  }

  lemma {:induction false} VariantsAre(base: string, i: nat, v: string)
    requires v in Variants(base, i)
    ensures exists j :: 2 <= j < i && v == Variant(base, j)
    decreases i
  {
    if v != Variant(base, i - 1) { VariantsAre(base, i - 1, v); }
  }

  lemma {:induction false} VariantsSize(names: set<string>, base: string, i: nat)
    requires i >= 2 && Tried(names, base, i)
    ensures |Variants(base, i)| == i - 2 && Variants(base, i) <= names
    decreases i
  {
    if i > 2 {
      var v := Variant(base, i - 1);
      VariantsSize(names, base, i - 1);
      if v in Variants(base, i - 1) {
        VariantsAre(base, i - 1, v);
        var j :| 2 <= j < i - 1 && v == Variant(base, j);
        VariantInjective(base, i - 1, j);
      }
    }
  }

  /** The rename loop tries at most one variant more than there are names. */
  lemma TriedBound(names: set<string>, base: string, i: nat)
    requires i >= 2 && Tried(names, base, i)
    ensures i - 2 <= |names|
  {
    VariantsSize(names, base, i);
    SubsetSize(Variants(base, i), names);
  }

  function Search(names: set<string>, base: string, i: nat): (r: string)
    requires i >= 2 && Tried(names, base, i)
    ensures r !in names
    decreases |names| + 2 - i
  {
    TriedBound(names, base, i);
    if Variant(base, i) !in names then Variant(base, i)
    else
      TriedBound(names, base, i + 1);
      Search(names, base, i + 1)
  }

  /** The name a connection is shown under. */
  function PickName(names: set<string>, name: string): (r: string)
    ensures r !in names && (name !in names ==> r == name)
  {
    if name in names then Search(names, name, 2) else name
  }

  // ----- Operations -----

  /** `allocVIP`. */
  function AllocVip(b: Book, hwid: string, name: string, now: int): (Book, Option<nat>) {
    if hwid == "" then
      var (pool, v) := TakeFree(b.pool);
      (b.(pool := pool), v)
    else
      var (c, r) := Assign(b, hwid, name, now);
      (c, if r.Some? then Some(r.value.0) else None)
  }

  /** `register`; a connection already at the address stays until it is removed. */
  function Register(s: Sys, c: nat, name: string, hwid: string, now: int): Sys {
    var (book, r) := AllocVip(s.book, hwid, name, now);
    if r.None? then s.(book := book)
    else
      var shown := PickName(s.byName.Keys, name);
      Sys(book, s.conns[c := Conn(shown, r.value, hwid)], s.devices[r.value := c], s.byName[shown := c])
  }

  /** `removeDevice`: drops only the entries that still point at this connection, and releases
      the address only of an anonymous one nobody has taken over. */
  function Remove(s: Sys, c: nat): Sys
    requires c in s.conns
  {
    var d := s.conns[c];
    var devices := if d.vip in s.devices && s.devices[d.vip] == c then s.devices - {d.vip} else s.devices;
    var byName := if d.name in s.byName && s.byName[d.name] == c then s.byName - {d.name} else s.byName;
    var takenOver := d.vip in devices;
    var book := if d.vip != 0 && d.hwid == "" && !takenOver
                then s.book.(pool := s.book.pool.(used := s.book.pool.used - {d.vip})) else s.book;
    Sys(book, s.conns - {c}, devices, byName)
  }

  datatype Op =
    | OpConnect(c: nat)
    | OpRegister(c: nat, name: string, hwid: string, now: int)
    | OpRemove(c: nat)
    | OpPrune(now: int)
    | OpSetIP(hwid: string, vip: nat)
    | OpSetForward(hwid: string, rules: seq<string>)
    | OpHandleRegister(hwid: string, name: string, id: string, key: string)
    | OpClear(hwid: string)
    | OpBlock(hwid: string)
    | OpUnblock(hwid: string)

  /** A connection is registered at most once and removed once. */
  predicate Enabled(s: Sys, op: Op) {
    match op
    case OpConnect(c) => c !in s.conns
    case OpRegister(c, name, hwid, now) => c in s.conns && s.conns[c] == UNREGISTERED && name != ""
    case OpRemove(c) => c in s.conns
    case _ => true
  }

  function Do(s: Sys, op: Op): Sys
    requires Enabled(s, op)
  {
    match op
    case OpConnect(c) => s.(conns := s.conns[c := UNREGISTERED])
    case OpRegister(c, name, hwid, now) => Register(s, c, name, hwid, now)
    case OpRemove(c) => Remove(s, c)
    case OpPrune(now) => s.(book := Prune(s.book, now))
    case OpSetIP(hwid, vip) => s.(book := SetIP(s.book, hwid, vip).0)
    case OpSetForward(hwid, rules) => s.(book := SetForward(s.book, hwid, rules).0)
    case OpHandleRegister(hwid, name, id, key) => s.(book := HandleRegister(s.book, hwid, name, id, key).0)
    case OpClear(hwid) => s.(book := ClearCredential(s.book, hwid).0)
    case OpBlock(hwid) => s.(book := Block(s.book, hwid).0)
    case OpUnblock(hwid) => s.(book := Unblock(s.book, hwid).0)
  }

  function Exec(s: Sys, run: seq<Op>): Option<Sys>
    decreases |run|
  {
    if run == [] then Some(s)
    else if Enabled(s, run[0]) then Exec(Do(s, run[0]), run[1..])
    else None
  }
}
