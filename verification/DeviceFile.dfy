/** Saving and loading the device table (internal/server/devices.go). */
module DeviceFile {
  import opened Common
  import opened Text
  import opened IpPool
  import opened Devices
  import opened DeviceInvariants

  /** One record of the file; an empty address is an omitted one. */
  datatype Entry = Entry(hwid: string, name: string, vip: string, expire: Option<int>, forward: seq<string>,
                         deviceId: string, deviceKey: string, blocked: bool)

  /** The record as `saveLocked` writes it. */
  function Saved(hwid: string, r: Rec): Entry
    requires r.vip < 0x1_0000_0000
  {
    if r.vip != 0 then Entry(hwid, r.name, IpString(r.vip), r.expire, r.forward, r.deviceId, r.deviceKey, r.blocked)
    else Entry(hwid, r.name, "", None, r.forward, r.deviceId, r.deviceKey, r.blocked)
  }

  function ParseVip(s: string): nat { if ParseIp4(s).Some? then ParseIp4(s).value else 0 }

  /** The three maps of a table. */
  datatype Tables = Tables(recs: map<string, Rec>, byVip: map<nat, string>, byId: map<string, string>)

  /** What loading one entry adds. */
  function LoadOne(t: Tables, e: Entry): Tables {
    if e.hwid == "" then t
    else
      var named := if e.vip != "" && ParseIp4(e.vip).Some? then t.byVip[ParseVip(e.vip) := e.hwid] else t.byVip;
      Tables(t.recs[e.hwid := Rec(e.name, ParseVip(e.vip), e.expire, e.forward, e.deviceId, e.deviceKey, e.blocked)],
             named,
             if e.deviceId != "" && e.deviceId !in t.byId then t.byId[e.deviceId := e.hwid] else t.byId)
  }

  function LoadAll(es: seq<Entry>): Tables
    decreases |es|
  {
    if es == [] then Tables(map[], map[], map[]) else LoadOne(LoadAll(es[..|es| - 1]), es[|es| - 1])
  }

  /** The loop of `NewDeviceTable` over the entries of a readable file. */
  method Load(es: seq<Entry>) returns (recs: map<string, Rec>, byVip: map<nat, string>, byId: map<string, string>)
    ensures Tables(recs, byVip, byId) == LoadAll(es)
  {
    recs, byVip, byId := map[], map[], map[];
    var i := 0;
    while i < |es|
      invariant i <= |es| && Tables(recs, byVip, byId) == LoadAll(es[..i])
    {
      var e := es[i];
      assert es[..i + 1][..i] == es[..i];
      i := i + 1;
      if e.hwid == "" { continue; }
      var r := Rec(e.name, 0, e.expire, e.forward, e.deviceId, e.deviceKey, e.blocked);
      if e.deviceId != "" && e.deviceId !in byId {
        byId := byId[e.deviceId := e.hwid];
      }
      if e.vip != "" {
        var vip := ParseIp4(e.vip);
        if vip.Some? {
          r := r.(vip := vip.value);
          byVip := byVip[vip.value := e.hwid];
        }
      }
      recs := recs[e.hwid := r];
    }
    assert es[..i] == es;
  }

  // ----- Round trip -----

  lemma ParseEmpty()
    ensures ParseIp4("").None?
  {
  }

  lemma LoadSaved(t: Tables, hwid: string, r: Rec)
    requires hwid != "" && r.vip < 0x1_0000_0000 && (r.vip == 0 ==> r.expire == None)
    ensures LoadOne(t, Saved(hwid, r)) ==
            Tables(t.recs[hwid := r],
                   if r.vip != 0 then t.byVip[r.vip := hwid] else t.byVip,
                   if r.deviceId != "" && r.deviceId !in t.byId then t.byId[r.deviceId := hwid] else t.byId)
  {
    ParseEmpty();
    if r.vip != 0 {
      IpRoundTrip(r.vip);
      assert IpString(r.vip) != "";
    }
  }

  /** The part of the book that the devices in `hs` account for. */
  ghost function Part(b: Book, hs: set<string>): Tables {
    Tables(map h | h in b.recs && h in hs :: b.recs[h],
           map v | v in b.byVip && b.byVip[v] in hs :: b.byVip[v],
           map id | id in b.byId && b.byId[id] in hs :: b.byId[id])
  }

  lemma PartStep(b: Book, hs: set<string>, h: string)
    requires RangeOk(b.pool) && VipsInverse(b) && IdsInverse(b) && h in b.recs && h !in hs
    ensures b.recs[h].vip < 0x1_0000_0000 && h != ""
    ensures LoadOne(Part(b, hs), Saved(h, b.recs[h])) == Part(b, hs + {h})
  {
    var r := b.recs[h];
    if r.vip != 0 { assert b.pool.InRange(r.vip); }
    LoadSaved(Part(b, hs), h, r);
    assert Part(b, hs + {h}).recs == Part(b, hs).recs[h := r];
    PartVips(b, hs, h);
    PartIds(b, hs, h);
  }

  lemma PartVips(b: Book, hs: set<string>, h: string)
    requires RangeOk(b.pool) && VipsInverse(b) && h in b.recs && h !in hs
    ensures Part(b, hs + {h}).byVip ==
            if b.recs[h].vip != 0 then Part(b, hs).byVip[b.recs[h].vip := h] else Part(b, hs).byVip
  {
    forall v | v in b.byVip && b.byVip[v] == h ensures v == b.recs[h].vip != 0 {}
    if b.recs[h].vip != 0 {
      assert Part(b, hs + {h}).byVip == Part(b, hs).byVip[b.recs[h].vip := h];
    } else {
      assert Part(b, hs + {h}).byVip == Part(b, hs).byVip;
    }
  }

  lemma PartIds(b: Book, hs: set<string>, h: string)
    requires IdsInverse(b) && h in b.recs && h !in hs
    ensures b.recs[h].deviceId !in Part(b, hs).byId
    ensures Part(b, hs + {h}).byId ==
            if b.recs[h].deviceId != "" then Part(b, hs).byId[b.recs[h].deviceId := h] else Part(b, hs).byId
  {
  }

  function First(order: seq<string>): set<string> { set h | h in order }

  predicate Distinct(order: seq<string>) { forall i, j | 0 <= i < j < |order| :: order[i] != order[j] }

  /** The file of a book: each device once, in the order given. */
  ghost predicate FileOf(b: Book, order: seq<string>, es: seq<Entry>) {
    && |es| == |order|
    && (forall i | 0 <= i < |es| ::
          && order[i] in b.recs && b.recs[order[i]].vip < 0x1_0000_0000
          && es[i] == Saved(order[i], b.recs[order[i]]))
  }

  lemma {:induction false} LoadPart(b: Book, order: seq<string>, es: seq<Entry>)
    requires RangeOk(b.pool) && VipsInverse(b) && IdsInverse(b) && Distinct(order) && FileOf(b, order, es)
    ensures LoadAll(es) == Part(b, First(order))
    decreases |es|
  {
    if es != [] {
      var n := |es| - 1;
      LoadPart(b, order[..n], es[..n]);
      assert First(order) == First(order[..n]) + {order[n]};
      PartStep(b, First(order[..n]), order[n]);
    }
  }

  lemma MoveOne(todo: set<string>, done: set<string>, h: string)
    requires h in todo && todo !! done
    ensures (todo - {h}) !! (done + {h}) && (todo - {h}) + (done + {h}) == todo + done && |todo - {h}| == |todo| - 1
  {
  }

  lemma AppendEntry(b: Book, order: seq<string>, es: seq<Entry>, h: string)
    requires FileOf(b, order, es) && Distinct(order) && h in b.recs
    requires b.recs[h].vip < 0x1_0000_0000 && h !in First(order)
    ensures FileOf(b, order + [h], es + [Saved(h, b.recs[h])]) && Distinct(order + [h])
    ensures First(order + [h]) == First(order) + {h}
  {
  }

  /** The loop of `saveLocked` over the records, before the entries are sorted. */
  method Save(b: Book) returns (es: seq<Entry>, ghost order: seq<string>)
    requires forall h | h in b.recs :: b.recs[h].vip < 0x1_0000_0000
    ensures Distinct(order) && First(order) == b.recs.Keys && FileOf(b, order, es)
    ensures |es| == |b.recs|
  {
    es, order := [], [];
    ghost var all := b.recs.Keys;
    var todo := b.recs.Keys;
    while todo != {}
      invariant FileOf(b, order, es) && Distinct(order)
      invariant todo !! First(order) && todo + First(order) == all
      invariant |es| + |todo| == |all|
      decreases |todo|
    {
      var h :| h in todo;
      AppendEntry(b, order, es, h);
      MoveOne(todo, First(order), h);
      es := es + [Saved(h, b.recs[h])];
      order := order + [h];
      todo := todo - {h};
    }
    assert |b.recs| == |b.recs.Keys|;
  }

  /** Loading what was saved rebuilds the records and both reverse indices, whatever order the
      devices were written in. */
  lemma LoadInvertsSave(b: Book, anon: set<nat>, order: seq<string>, es: seq<Entry>)
    requires Inv(b, anon)
    requires Distinct(order) && First(order) == b.recs.Keys && FileOf(b, order, es)
    ensures LoadAll(es) == Tables(b.recs, b.byVip, b.byId)
  {
    LoadPart(b, order, es);
    WholePart(b);
  }

  lemma WholePart(b: Book)
    requires VipsInverse(b) && IdsInverse(b)
    ensures Part(b, b.recs.Keys) == Tables(b.recs, b.byVip, b.byId)
  {
    assert Part(b, b.recs.Keys).recs == b.recs;
    assert Part(b, b.recs.Keys).byVip == b.byVip;
    assert Part(b, b.recs.Keys).byId == b.byId;
  }
}
