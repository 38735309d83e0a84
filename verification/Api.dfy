/** The API backend: reads the tables, assembles a response, publishes it in the cache. */
module Api {
  import opened Values
  import opened Bags
  import opened Combining
  import opened TableSpec
  import opened Database
  import opened Query
  import opened Accumulation
  import opened Integrity
  import opened Catalog
  import opened Listings
  import opened Responses
  import opened TableWrites
  import opened Flushing

  // ----- assembling a catalog from what was read -----

  function GroupOf(groups: map<Value, seq<Record>>, v: Value): seq<Record> {
    if v in groups then groups[v] else []
  }

  ghost function ComponentFrom(piiGroups: map<Value, seq<Record>>): Record -> ComponentView {
    r => ComponentView(StringField(r, "component_type"), StringField(r, "value"),
                       Gather(GroupOf(piiGroups, Str(StringField(r, "id"))), PiiKind()))
  }

  ghost function ItemFrom(rec: Record, compGroups: map<Value, seq<Record>>, piiGroups: map<Value, seq<Record>>): ItemView {
    var name := StringField(rec, "name");
    ItemView(name, StringField(rec, "type"), Gather(GroupOf(compGroups, Str(name)), One(ComponentFrom(piiGroups))))
  }

  /** One app item per name; of several records with one name the last one counts. */
  ghost function CatalogFrom(items: seq<Record>, compGroups: map<Value, seq<Record>>,
      piiGroups: map<Value, seq<Record>>): CatalogView
  {
    if items == [] then map[]
    else
      var last := items[|items| - 1];
      CatalogFrom(items[..|items| - 1], compGroups, piiGroups)
        [StringField(last, "name") := ItemFrom(last, compGroups, piiGroups)]
  }

  method PiiKinds(recs: seq<Record>) returns (kinds: seq<string>)
    ensures multiset(kinds) == Gather(recs, PiiKind())
  {
    kinds := [];
    for i := 0 to |recs|
      invariant multiset(kinds) == Gather(recs[..i], PiiKind())
    {
      GatherStep(recs, PiiKind(), i);
      kinds := kinds + [StringField(recs[i], "pii_type")];
    }
    WholePrefix(recs);
  }

  lemma GatherSnoc<R, T>(s: seq<R>, x: R, g: R -> multiset<T>)
    ensures Gather(s + [x], g) == Gather(s, g) + g(x)
  {
    assert (s + [x])[..|s|] == s;
  }

  method BuildComponents(recs: seq<Record>, piiGroups: map<Value, seq<Record>>) returns (components: seq<CatalogComponent>)
    ensures Gather(components, One(ViewComponent())) == Gather(recs, One(ComponentFrom(piiGroups)))
  {
    components := [];
    for i := 0 to |recs|
      invariant Gather(components, One(ViewComponent())) == Gather(recs[..i], One(ComponentFrom(piiGroups)))
    {
      var rec := recs[i];
      var piis := PiiKinds(GroupOf(piiGroups, Str(StringField(rec, "id"))));
      var component := CatalogComponent(StringField(rec, "component_type"), StringField(rec, "value"), piis);
      GatherSnoc(components, component, One(ViewComponent()));
      GatherStep(recs, One(ComponentFrom(piiGroups)), i);
      components := components + [component];
    }
    WholePrefix(recs);
  }

  method BuildCatalog(items: seq<Record>, compGroups: map<Value, seq<Record>>, piiGroups: map<Value, seq<Record>>)
      returns (result: CatalogResponse)
    ensures ViewCatalog(result) == CatalogFrom(items, compGroups, piiGroups)
  {
    result := map[];
    for i := 0 to |items|
      invariant ViewCatalog(result) == CatalogFrom(items[..i], compGroups, piiGroups)
    {
      var name := StringField(items[i], "name");
      var components := BuildComponents(GroupOf(compGroups, Str(name)), piiGroups);
      var item := AppItem(name, StringField(items[i], "type"), components);
      CatalogNext(items, compGroups, piiGroups, i);
      StoreItem(result, name, item);
      result := result[name := item];
    }
    WholePrefix(items);
  }

  lemma CatalogNext(items: seq<Record>, compGroups: map<Value, seq<Record>>, piiGroups: map<Value, seq<Record>>, i: nat)
    requires i < |items|
    ensures CatalogFrom(items[..i + 1], compGroups, piiGroups)
         == CatalogFrom(items[..i], compGroups, piiGroups)
              [StringField(items[i], "name") := ItemFrom(items[i], compGroups, piiGroups)]
  {
    var more := items[..i + 1];
    assert more[..|more| - 1] == items[..i];
  }

  lemma StoreItem(result: CatalogResponse, name: string, item: AppItem)
    ensures ViewCatalog(result[name := item]) == ViewCatalog(result)[name := ViewItem(item)]
  {
  }

  // ----- assembling the connections from what was read -----

  ghost function ById(recs: seq<Record>): Rows {
    if recs == [] then map[]
    else ById(recs[..|recs| - 1])[StringField(recs[|recs| - 1], "id") := recs[|recs| - 1]]
  }

  method IndexById(recs: seq<Record>) returns (byId: Rows)
    ensures byId == ById(recs)
  {
    byId := map[];
    for i := 0 to |recs|
      invariant byId == ById(recs[..i])
    {
      assert recs[..i + 1][..i] == recs[..i];
      byId := byId[StringField(recs[i], "id") := recs[i]];
    }
    WholePrefix(recs);
  }

  /** The components of one connection, in order, unless one of them is unknown. */
  method BuildConnection(rec: Record, byId: Rows) returns (c: Option<Connection>)
    ensures c.Some? <==> AllIn(Ids(rec), byId.Keys)
    ensures c.Some? ==> c.value == ConnectionAt(byId)(rec)
  {
    var ids := AsList(Lookup(rec, "component_ids"));
    var components: seq<ConnectionComponent> := [];
    for i := 0 to |ids|
      invariant |components| == i
      invariant forall j :: 0 <= j < i ==> ids[j] in byId && components[j] == ConnectionComponentAt(byId)(ids[j])
    {
      if ids[i] !in byId {
        return None;
      }
      var comp := byId[ids[i]];
      ComponentLooked(byId, ids[i]);
      components := components + [ConnectionComponent(StringField(comp, "component_type"), StringField(comp, "value"))];
    }
    ConnectionBuilt(rec, byId, components);
    c := Some(Connection(StringField(rec, "source"), StringField(rec, "destination"), components));
  }

  lemma ComponentLooked(byId: Rows, id: string)
    requires id in byId
    ensures ConnectionComponentAt(byId)(id)
         == ConnectionComponent(StringField(byId[id], "component_type"), StringField(byId[id], "value"))
  {
    assert Row(byId)(id) == byId[id];
  }

  lemma ConnectionBuilt(rec: Record, byId: Rows, components: seq<ConnectionComponent>)
    requires |components| == |Ids(rec)|
    requires forall i :: 0 <= i < |components| ==> components[i] == ConnectionComponentAt(byId)(Ids(rec)[i])
    ensures ConnectionAt(byId)(rec) == Connection(StringField(rec, "source"), StringField(rec, "destination"), components)
  {
    assert components == ConnectionAt(byId)(rec).components;
  }

  method BuildConnections(recs: seq<Record>, byId: Rows) returns (r: Option<seq<Connection>>)
    ensures r.Some? <==> forall i :: 0 <= i < |recs| ==> AllIn(Ids(recs[i]), byId.Keys)
    ensures r.Some? ==> |r.value| == |recs| && forall i :: 0 <= i < |recs| ==> r.value[i] == ConnectionAt(byId)(recs[i])
  {
    var connections: seq<Connection> := [];
    for i := 0 to |recs|
      invariant |connections| == i
      invariant forall j :: 0 <= j < i ==> AllIn(Ids(recs[j]), byId.Keys) && connections[j] == ConnectionAt(byId)(recs[j])
    {
      var c := BuildConnection(recs[i], byId);
      if c.None? {
        return None;
      }
      connections := connections + [c.value];
    }
    r := Some(connections);
  }

  // ----- what was read against what is stored -----

  lemma GroupGathers<T>(groups: map<Value, seq<Record>>, rows: Rows, field: string, v: Value, g: Record -> multiset<T>)
    requires Groups(groups, rows, field)
    ensures Gather(GroupOf(groups, v), g) == Sum(KeysWith(rows, field, v), Then(Row(rows), g))
  {
    assert GroupAt(groups, rows, field, v);
    if v in groups {
      GatherIsSum(groups[v], KeysWith(rows, field, v), Row(rows), g);
    }
  }

  lemma ComponentsRead(compGroups: map<Value, seq<Record>>, piiGroups: map<Value, seq<Record>>,
      comps: Rows, piis: Rows, name: string)
    requires Groups(compGroups, comps, "app_item_name") && Groups(piiGroups, piis, "component_id")
    ensures Gather(GroupOf(compGroups, Str(name)), One(ComponentFrom(piiGroups))) == ComponentsOf(comps, piis, name)
  {
    var keys := KeysWith(comps, "app_item_name", Str(name));
    var f, g := Then(Row(comps), One(ComponentFrom(piiGroups))), Each(After(ComponentAt(piis), Row(comps)));
    GroupGathers(compGroups, comps, "app_item_name", Str(name), One(ComponentFrom(piiGroups)));
    forall k | k in keys
      ensures f(k) == g(k)
    {
      var rec := Row(comps)(k);
      GroupGathers(piiGroups, piis, "component_id", Str(StringField(rec, "id")), PiiKind());
      assert ComponentFrom(piiGroups)(rec) == ComponentAt(piis)(rec);
    }
    SumAgrees(keys, f, g);
  }

  lemma {:induction false} CatalogFromAt(recs: seq<Record>, compGroups: map<Value, seq<Record>>,
      piiGroups: map<Value, seq<Record>>, n: string)
    ensures n in CatalogFrom(recs, compGroups, piiGroups) <==> exists r :: r in recs && StringField(r, "name") == n
    ensures n in CatalogFrom(recs, compGroups, piiGroups) ==>
      exists r :: r in recs && StringField(r, "name") == n
        && CatalogFrom(recs, compGroups, piiGroups)[n] == ItemFrom(r, compGroups, piiGroups)
  {
    if recs != [] {
      var front, last := recs[..|recs| - 1], recs[|recs| - 1];
      CatalogFromAt(front, compGroups, piiGroups, n);
      assert recs == front + [last];
      assert forall r :: r in recs <==> r in front || r == last;
    }
  }

  /** The records that were read are the stored rows. */
  ghost predicate Reads(recs: seq<Record>, rows: Rows) {
    multiset(recs) == RowsAt(rows, rows.Keys)
  }

  lemma ReadsElements(recs: seq<Record>, rows: Rows, r: Record)
    requires Reads(recs, rows)
    ensures r in recs <==> exists k :: k in rows && rows[k] == r
  {
    SumContains(rows.Keys, Each(Row(rows)), r);
    assert r in recs <==> r in multiset(recs);
    if k :| k in rows && rows[k] == r {
      assert r in Each(Row(rows))(k);
    }
    if r in recs {
      var k :| k in rows.Keys && r in Each(Row(rows))(k);
      assert rows[k] == r;
    }
  }

  lemma ItemRead(recs: seq<Record>, items: Rows, r: Record)
    requires Reads(recs, items) && AllRows(IsItem, items) && r in recs
    ensures StringField(r, "name") in items && items[StringField(r, "name")] == r
  {
    ReadsElements(recs, items, r);
    var k :| k in items && items[k] == r;
    assert IsItem(k, items[k]);
  }

  lemma ItemNamed(recs: seq<Record>, items: Rows, n: string)
    requires Reads(recs, items) && AllRows(IsItem, items) && n in items
    ensures items[n] in recs && StringField(items[n], "name") == n
  {
    ReadsElements(recs, items, items[n]);
    assert IsItem(n, items[n]);
  }

  lemma NameRead(recs: seq<Record>, compGroups: map<Value, seq<Record>>, piiGroups: map<Value, seq<Record>>,
      items: Rows, n: string)
    requires Reads(recs, items) && AllRows(IsItem, items)
    ensures n in CatalogFrom(recs, compGroups, piiGroups) <==> n in items
    ensures n in items ==> CatalogFrom(recs, compGroups, piiGroups)[n] == ItemFrom(items[n], compGroups, piiGroups)
    ensures n in items ==> StringField(items[n], "name") == n
  {
    var built := CatalogFrom(recs, compGroups, piiGroups);
    CatalogFromAt(recs, compGroups, piiGroups, n);
    if n in items {
      ItemNamed(recs, items, n);
    }
    if n in built {
      var r :| r in recs && StringField(r, "name") == n && built[n] == ItemFrom(r, compGroups, piiGroups);
      ItemRead(recs, items, r);
    }
  }

  lemma ItemShown(rec: Record, compGroups: map<Value, seq<Record>>, piiGroups: map<Value, seq<Record>>,
      comps: Rows, piis: Rows, n: string)
    requires Groups(compGroups, comps, "app_item_name") && Groups(piiGroups, piis, "component_id")
    requires StringField(rec, "name") == n
    ensures ItemFrom(rec, compGroups, piiGroups) == ItemView(n, StringField(rec, "type"), ComponentsOf(comps, piis, n))
  {
    ComponentsRead(compGroups, piiGroups, comps, piis, n);
  }

  ghost predicate ShowsItem(view: CatalogView, items: Rows, comps: Rows, piis: Rows, n: string) {
    && (n in view <==> n in items)
    && (n in items ==> view[n] == ItemView(n, StringField(items[n], "type"), ComponentsOf(comps, piis, n)))
  }

  lemma ShowsAllItems(view: CatalogView, items: Rows, comps: Rows, piis: Rows)
    requires forall n :: ShowsItem(view, items, comps, piis, n)
    ensures view == CatalogOf(items, comps, piis)
  {
    var meant := CatalogOf(items, comps, piis);
    forall n
      ensures n in view.Keys <==> n in meant.Keys
      ensures n in view ==> view[n] == meant[n]
    {
      assert ShowsItem(view, items, comps, piis, n);
    }
    SameMap(view, meant);
  }

  /** The assembled catalog is the catalog of the rows that were read. */
  lemma CatalogRead(recs: seq<Record>, compGroups: map<Value, seq<Record>>, piiGroups: map<Value, seq<Record>>,
      items: Rows, comps: Rows, piis: Rows)
    requires Reads(recs, items) && AllRows(IsItem, items)
    requires Groups(compGroups, comps, "app_item_name") && Groups(piiGroups, piis, "component_id")
    ensures CatalogFrom(recs, compGroups, piiGroups) == CatalogOf(items, comps, piis)
  {
    var built := CatalogFrom(recs, compGroups, piiGroups);
    forall n
      ensures ShowsItem(built, items, comps, piis, n)
    {
      NameRead(recs, compGroups, piiGroups, items, n);
      if n in items {
        ItemShown(items[n], compGroups, piiGroups, comps, piis, n);
      }
    }
    ShowsAllItems(built, items, comps, piis);
  }

  lemma {:induction false} ByIdAt(recs: seq<Record>, id: string)
    ensures id in ById(recs) <==> exists r :: r in recs && StringField(r, "id") == id
    ensures id in ById(recs) ==> ById(recs)[id] in recs && StringField(ById(recs)[id], "id") == id
  {
    if recs != [] {
      var front, last := recs[..|recs| - 1], recs[|recs| - 1];
      ByIdAt(front, id);
      assert recs == front + [last];
      assert forall r :: r in recs <==> r in front || r == last;
    }
  }

  lemma ByIdIsRows(recs: seq<Record>, comps: Rows)
    requires Reads(recs, comps) && AllRows(IsComponent, comps)
    ensures ById(recs) == comps
  {
    forall id
      ensures id in ById(recs) <==> id in comps
      ensures id in ById(recs) && id in comps ==> ById(recs)[id] == comps[id]
    {
      ByIdAt(recs, id);
      if id in comps {
        ReadsElements(recs, comps, comps[id]);
        assert IsComponent(id, comps[id]);
      }
      if id in ById(recs) {
        var r := ById(recs)[id];
        ReadsElements(recs, comps, r);
        var k :| k in comps && comps[k] == r;
        assert IsComponent(k, comps[k]);
      }
    }
  }

  lemma AllResolved(recs: seq<Record>, conns: Rows, comps: Rows)
    requires Reads(recs, conns)
    ensures (forall i :: 0 <= i < |recs| ==> AllIn(Ids(recs[i]), comps.Keys)) <==> Resolvable(conns, comps)
  {
    if forall i :: 0 <= i < |recs| ==> AllIn(Ids(recs[i]), comps.Keys) {
      forall k | k in conns
        ensures Resolved(comps.Keys)(k, conns[k])
      {
        ReadsElements(recs, conns, conns[k]);
        var i :| 0 <= i < |recs| && recs[i] == conns[k];
      }
    }
    if Resolvable(conns, comps) {
      forall i | 0 <= i < |recs|
        ensures AllIn(Ids(recs[i]), comps.Keys)
      {
        ReadsElements(recs, conns, recs[i]);
        var k :| k in conns && conns[k] == recs[i];
        assert Resolved(comps.Keys)(k, conns[k]);
      }
    }
  }

  /** The assembled connections are those of the rows that were read, each once. */
  lemma ConnectionsRead(recs: seq<Record>, built: seq<Connection>, conns: Rows, comps: Rows)
    requires Reads(recs, conns)
    requires |built| == |recs| && forall i :: 0 <= i < |recs| ==> built[i] == ConnectionAt(comps)(recs[i])
    ensures multiset(built) == ConnectionsOf(conns, comps)
  {
    GatherEach(recs, built, ConnectionAt(comps));
    GatherIsSum(recs, conns.Keys, Row(conns), One(ConnectionAt(comps)));
    SumAgrees(conns.Keys, Then(Row(conns), One(ConnectionAt(comps))), Each(After(ConnectionAt(comps), Row(conns))));
  }

  // ----- the backend -----

  lemma NoFilters(records: map<string, Record>)
    ensures Selection(records, map[]) == RowsAt(records, records.Keys)
  {
    assert MatchingKeys(records, map[]) == records.Keys;
  }

  /** The catalog response describes the three tables as they are. */
  ghost predicate ShowsCatalog(r: CatalogResponse, v: View) {
    ViewCatalog(r) == CatalogOf(RowsOf(v.items), RowsOf(v.comps), RowsOf(v.piis))
  }

  ghost predicate ShowsConnections(r: seq<Connection>, v: View) {
    multiset(r) == ConnectionsOf(RowsOf(v.conns), RowsOf(v.comps))
  }

  /** The catalog lists exactly the rows of the tables. */
  ghost predicate ListsStored(r: CatalogResponse, t: Tables) {
    ListsCatalog(r, t.items, t.comps, t.piis)
  }

  lemma ShownIsListed(r: CatalogResponse, v: View)
    requires ShowsCatalog(r, v) && WellFormed(Snapshot(v))
    ensures ListsStored(r, Snapshot(v))
  {
    CatalogListed(r, RowsOf(v.items), RowsOf(v.comps), RowsOf(v.piis));
  }

  lemma ShownAreListed(r: seq<Connection>, v: View)
    requires ShowsConnections(r, v) && WellFormed(Snapshot(v)) && Resolvable(RowsOf(v.conns), RowsOf(v.comps))
    ensures ListsConnections(r, RowsOf(v.conns), RowsOf(v.comps))
  {
    ConnectionsListed(r, RowsOf(v.conns), RowsOf(v.comps));
  }

  /** A freshly fetched catalog: an error iff a table is missing, else what the tables hold. */
  ghost predicate AnswersCatalog(r: Option<CatalogResponse>, v: View) {
    && (r.Some? <==> v.items.Some? && v.comps.Some? && v.piis.Some?)
    && (r.Some? && AllHealthy(v) && AllRows(IsItem, RowsOf(v.items)) ==> ShowsCatalog(r.value, v))
    && (r.Some? && AllHealthy(v) && WellFormed(Snapshot(v)) ==> ListsStored(r.value, Snapshot(v)))
  }

  /** Freshly fetched connections: also an error iff some connection lists an unknown component. */
  ghost predicate AnswersConnections(r: Option<seq<Connection>>, v: View) {
    && (r.Some? ==> v.conns.Some? && v.comps.Some?)
    && (AllHealthy(v) && AllRows(IsComponent, RowsOf(v.comps)) ==>
          && (r.Some? <==> v.conns.Some? && v.comps.Some? && Resolvable(RowsOf(v.conns), RowsOf(v.comps)))
          && (r.Some? ==> ShowsConnections(r.value, v)))
    && (r.Some? && AllHealthy(v) && WellFormed(Snapshot(v)) ==> ListsConnections(r.value, RowsOf(v.conns), RowsOf(v.comps)))
  }

  class ApiBackend {
    const db: DB
    const cache: ResponseCache

    constructor (db: DB)
      ensures this.db == db && fresh(cache) && cache.State() == CacheState(0, None, None)
    {
      this.db := db;
      this.cache := new ResponseCache();
    }

    method InvalidateCache()
      modifies cache
      ensures cache.State() == Invalidated(old(cache.State()))
    {
      cache.Invalidate();
    }

    /** All records of a table, or None when there is no such table. */
    method All(name: string) returns (recs: Option<seq<Record>>)
      ensures recs.Some? <==> Peek(db, name).Some?
      ensures recs.Some? && Healthy(Peek(db, name).value) ==> Reads(recs.value, Peek(db, name).value.records)
    {
      var q := new QueryBuilder(db, name);
      var r := q.Execute();
      if r.Missing? {
        return None;
      }
      NoFilters(db.tables[name].records);
      recs := Some(r.rows);
    }

    method AllBy(name: string, field: string) returns (groups: Option<map<Value, seq<Record>>>)
      ensures groups.Some? <==> Peek(db, name).Some?
      ensures groups.Some? && Healthy(Peek(db, name).value) ==> Groups(groups.value, Peek(db, name).value.records, field)
    {
      var r := AllGroupedBy(db, name, field);
      groups := if r.Grouped? then Some(r.groups) else None;
    }

    method FetchCatalog() returns (r: Option<CatalogResponse>)
      ensures AnswersCatalog(r, ViewOf(db))
    {
      var items := All("app_items");
      var compGroups := AllBy("components", "app_item_name");
      var piiGroups := AllBy("component_piis", "component_id");
      if items.None? || compGroups.None? || piiGroups.None? {
        return None;
      }
      var result := BuildCatalog(items.value, compGroups.value, piiGroups.value);
      ghost var v := ViewOf(db);
      if AllHealthy(v) && AllRows(IsItem, RowsOf(v.items)) {
        CatalogRead(items.value, compGroups.value, piiGroups.value, RowsOf(v.items), RowsOf(v.comps), RowsOf(v.piis));
        if WellFormed(Snapshot(v)) { ShownIsListed(result, v); }
      }
      r := Some(result);
    }

    /** A hit returns the cached value; a miss reads, assembles and publishes under the generation it saw. */
    method GetCatalog() returns (r: Option<CatalogResponse>)
      modifies cache
      ensures old(cache.State()).catalog.Some? ==> r == old(cache.State()).catalog && cache.State() == old(cache.State())
      ensures old(cache.State()).catalog.None? ==>
        AnswersCatalog(r, ViewOf(db)) && cache.State() == old(cache.State()).(catalog := r)
    {
      var cached, gen := cache.GetCatalog();
      if cached.Some? {
        return cached;
      }
      r := FetchCatalog();
      if r.Some? {
        cache.SetCatalog(gen, r.value);
      }
    }

    method FetchConnections() returns (r: Option<seq<Connection>>)
      ensures AnswersConnections(r, ViewOf(db))
    {
      var conns := All("connections");
      var comps := All("components");
      if conns.None? || comps.None? {
        return None;
      }
      var byId := IndexById(comps.value);
      r := BuildConnections(conns.value, byId);
      ghost var v := ViewOf(db);
      if AllHealthy(v) && AllRows(IsComponent, RowsOf(v.comps)) {
        ByIdIsRows(comps.value, RowsOf(v.comps));
        AllResolved(conns.value, RowsOf(v.conns), RowsOf(v.comps));
        if r.Some? {
          ConnectionsRead(conns.value, r.value, RowsOf(v.conns), RowsOf(v.comps));
          if WellFormed(Snapshot(v)) { ShownAreListed(r.value, v); }
        }
      }
    }

    /** As GetCatalog; a listed component that is not stored makes the whole request fail. */
    method GetConnections() returns (r: Option<seq<Connection>>)
      modifies cache
      ensures old(cache.State()).connections.Some? ==>
        r == old(cache.State()).connections && cache.State() == old(cache.State())
      ensures old(cache.State()).connections.None? ==>
        AnswersConnections(r, ViewOf(db)) && cache.State() == old(cache.State()).(connections := r)
    {
      var cached, gen, ok := cache.GetConnections();
      if ok {
        return Some(cached);
      }
      r := FetchConnections();
      if r.Some? {
        cache.SetConnections(gen, r.value);
      }
    }
  }
}
