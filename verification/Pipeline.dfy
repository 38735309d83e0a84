/** The service end to end: create the schema, process spans, answer the two requests. */
module Pipeline {
  import opened Values
  import opened TableSpec
  import opened Database
  import opened Spans
  import opened Accumulation
  import opened Integrity
  import opened TableWrites
  import opened Flushing
  import opened Schedule
  import opened Processor
  import opened Responses
  import opened Catalog
  import opened Api
  import opened Listings
  import opened Reports

  // ----- the schema -----

  /** An empty table with the schema's indexes. */
  ghost predicate NewTable(t: Option<TableState>, schema: Schema) {
    t.Some? && SchemaOf(t.value) == schema && t.value.records == map[] && Healthy(t.value)
  }

  ghost predicate NewSchema(v: View) {
    && NewTable(v.items, ItemsSchema()) && NewTable(v.comps, ComponentsSchema())
    && NewTable(v.piis, PiisSchema()) && NewTable(v.conns, ConnectionsSchema())
  }

  /** Primary keys and indexed fields, table by table. */
  ghost predicate SchemaAsDeclared(v: View) {
    && v.items.Some? && v.items.value.pk == "name" && v.items.value.indexes.Keys == {"type"}
    && v.comps.Some? && v.comps.value.pk == "id" && v.comps.value.indexes.Keys == {"app_item_name", "component_type"}
    && v.piis.Some? && v.piis.value.pk == "id" && v.piis.value.indexes.Keys == {"component_id", "pii_type"}
    && v.conns.Some? && v.conns.value.pk == "id" && v.conns.value.indexes.Keys == {"source", "destination"}
  }

  lemma NewIsDeclared(v: View)
    requires NewSchema(v)
    ensures SchemaAsDeclared(v)
  {
  }

  datatype Definition = Definition(name: string, pk: string, indexed: seq<string>)

  ghost function SchemaFor(d: Definition): Schema {
    Schema(d.pk, set f | f in d.indexed)
  }

  lemma EmptyIsHealthy(st: TableState)
    requires st.records == map[] && forall f :: f in st.indexes ==> st.indexes[f] == map[]
    ensures Healthy(st)
  {
  }

  method CreateOne(db: DB, d: Definition) returns (ok: bool)
    requires db.Valid()
    modifies db
    ensures db.Valid() && (ok <==> d.name !in old(db.tables))
    ensures !ok ==> db.tables == old(db.tables)
    ensures ok ==> d.name in db.tables && fresh(db.tables[d.name])
    ensures ok ==> db.tables == old(db.tables)[d.name := db.tables[d.name]]
    ensures ok ==> NewTable(Peek(db, d.name), SchemaFor(d))
  {
    ok := db.CreateTable(d.name, d.pk, d.indexed);
    if ok {
      EmptyIsHealthy(db.At(d.name));
    }
  }

  method CreateTwo(db: DB, a: Definition, b: Definition) returns (ok: bool)
    requires db.Valid() && a.name != b.name
    modifies db
    ensures db.Valid() && (ok <==> a.name !in old(db.tables) && b.name !in old(db.tables))
    ensures db.tables.Keys == old(db.tables).Keys
      + if a.name in old(db.tables) then {} else if b.name in old(db.tables) then {a.name} else {a.name, b.name}
    ensures fresh(db.tables.Values - old(db.tables).Values)
    ensures forall n :: n in old(db.tables) ==> n in db.tables && db.tables[n] == old(db.tables)[n]
    ensures ok ==> NewTable(Peek(db, a.name), SchemaFor(a)) && NewTable(Peek(db, b.name), SchemaFor(b))
  {
    ok := CreateOne(db, a);
    if ok {
      ok := CreateOne(db, b);
    }
  }

  /** The tables that get created before the first name that is taken. */
  function Created(a: string, b: string, c: string, d: string, taken: set<string>): set<string> {
    if a in taken then {} else if b in taken then {a} else if c in taken then {a, b}
    else if d in taken then {a, b, c} else {a, b, c, d}
  }

  /** Creates the tables in turn; fails at the first one that exists already, keeping those before it. */
  method CreateAll(db: DB, a: Definition, b: Definition, c: Definition, d: Definition) returns (ok: bool)
    requires db.Valid() && NoDuplicates([a.name, b.name, c.name, d.name])
    modifies db
    ensures db.Valid()
    ensures ok <==> && a.name !in old(db.tables) && b.name !in old(db.tables)
                    && c.name !in old(db.tables) && d.name !in old(db.tables)
    ensures db.tables.Keys == old(db.tables).Keys + Created(a.name, b.name, c.name, d.name, old(db.tables).Keys)
    ensures fresh(db.tables.Values - old(db.tables).Values)
    ensures forall n :: n in old(db.tables) ==> n in db.tables && db.tables[n] == old(db.tables)[n]
    ensures ok ==> NewTable(Peek(db, a.name), SchemaFor(a)) && NewTable(Peek(db, b.name), SchemaFor(b))
    ensures ok ==> NewTable(Peek(db, c.name), SchemaFor(c)) && NewTable(Peek(db, d.name), SchemaFor(d))
  {
    var names := [a.name, b.name, c.name, d.name];
    assert names[0] == a.name && names[1] == b.name && names[2] == c.name && names[3] == d.name;
    ok := CreateTwo(db, a, b);
    if ok {
      ghost var first, second := Peek(db, a.name), Peek(db, b.name);
      ok := CreateTwo(db, c, d);
      assert Peek(db, a.name) == first && Peek(db, b.name) == second;
    }
  }

  method CreateSchema(db: DB) returns (ok: bool)
    requires db.Valid()
    modifies db
    ensures db.Valid()
    ensures ok <==> && "app_items" !in old(db.tables) && "components" !in old(db.tables)
                    && "component_piis" !in old(db.tables) && "connections" !in old(db.tables)
    ensures db.tables.Keys == old(db.tables).Keys
      + Created("app_items", "components", "component_piis", "connections", old(db.tables).Keys)
    ensures forall n :: n in old(db.tables) ==> n in db.tables && db.tables[n] == old(db.tables)[n]
    ensures fresh(db.tables.Values - old(db.tables).Values)
    ensures ok ==> NewSchema(ViewOf(db)) && SchemaAsDeclared(ViewOf(db))
  {
    var items := Definition("app_items", "name", ["type"]);
    var comps := Definition("components", "id", ["app_item_name", "component_type"]);
    var piis := Definition("component_piis", "id", ["component_id", "pii_type"]);
    var conns := Definition("connections", "id", ["source", "destination"]);
    assert NoDuplicates(["app_items", "components", "component_piis", "connections"]);
    ok := CreateAll(db, items, comps, piis, conns);
    if ok { NewIsDeclared(ViewOf(db)); }
  }

  // ----- runs of the processor -----

  /** Processing xs and then ys is processing xs + ys, whatever the thresholds of the three calls. */
  lemma ProcessComposes(cfg: Config, v: View, u: View, w: View, xs: seq<Span>, ys: seq<Span>, ok: bool)
    ensures Flushed(v, u, AccumulatedBy(cfg)(xs), true) && Flushed(u, w, AccumulatedBy(cfg)(ys), ok)
      ==> Flushed(v, w, AccumulatedBy(cfg)(xs + ys), ok)
  {
    TotalsAdd(cfg);
    var total := AccumulatedBy(cfg);
    assert total(xs + ys) == Apply(total(xs), total(ys));
    if Flushed(v, u, total(xs), true) && Flushed(u, w, total(ys), ok) {
      FlushedTwice(v, u, w, total(xs), total(ys), ok);
    }
  }

  /** Processing the same spans again changes nothing. */
  lemma ProcessAgain(cfg: Config, v: View, u: View, w: View, xs: seq<Span>)
    ensures Flushed(v, u, AccumulatedBy(cfg)(xs), true) && Flushed(u, w, AccumulatedBy(cfg)(xs), true)
      ==> Snapshot(w) == Snapshot(u)
  {
    DeltasWellFormed(cfg);
    AccumulatedWellFormed(DeltaOf(cfg), xs);
    ApplyIdempotent(Snapshot(v), AccumulatedBy(cfg)(xs));
  }

  /** Processing leaves what writing every span on its own leaves. */
  lemma ProcessIsSpanBySpan(cfg: Config, v: View, w: View, spans: seq<Span>)
    ensures Flushed(v, w, AccumulatedBy(cfg)(spans), true) ==> Snapshot(w) == WriteEach(DeltaOf(cfg), Snapshot(v), spans)
  {
    SpanBySpan(DeltaOf(cfg), Snapshot(v), spans);
  }

  /** Every successful call keeps rows well-formed and references good. */
  lemma ProcessKeepsRows(cfg: Config, v: View, w: View, spans: seq<Span>)
    ensures Flushed(v, w, AccumulatedBy(cfg)(spans), true) && GoodRows(Snapshot(v)) ==> GoodRows(Snapshot(w))
  {
    AccumulatedGood(cfg, spans);
    if GoodRows(Snapshot(v)) {
      ApplyWellFormed(Snapshot(v), AccumulatedBy(cfg)(spans));
      ApplyClosed(Snapshot(v), AccumulatedBy(cfg)(spans));
    }
  }

  lemma FreshSchemaGood(v: View)
    requires NewSchema(v)
    ensures SchemaOk(v) && AllHealthy(v) && Snapshot(v) == Empty()
    ensures forall a: Tables :: Writable(v, a)
  {
  }

  /** From an empty schema the tables become exactly what the spans accumulate to. */
  lemma ProcessFromNew(cfg: Config, v: View, w: View, spans: seq<Span>, ok: bool)
    requires NewSchema(v)
    ensures Flushed(v, w, AccumulatedBy(cfg)(spans), ok) ==>
      ok && Snapshot(w) == AccumulatedBy(cfg)(spans) && AllHealthy(w) && GoodRows(Snapshot(w))
  {
    FreshSchemaGood(v);
    ApplyIdentity(AccumulatedBy(cfg)(spans));
    AccumulatedGood(cfg, spans);
  }

  // ----- the answers -----

  /** The catalog lists each stored component once under its own app item, each finding once. */
  ghost predicate Conserves(r: CatalogResponse, t: Tables) {
    && ViewCatalog(r) == CatalogOf(t.items, t.comps, t.piis)
    && |ComponentsIn(ViewCatalog(r))| == |t.comps|
    && |PiisIn(ViewCatalog(r))| == |t.piis|
  }

  lemma CatalogConserves(r: CatalogResponse, v: View)
    requires ShowsCatalog(r, v) && GoodRows(Snapshot(v))
    ensures Conserves(r, Snapshot(v))
  {
    var t := Snapshot(v);
    ComponentsConserved(t.items, t.comps, t.piis);
    PiisConserved(t.items, t.comps, t.piis);
  }

  /** Both requests right after processing: the answers show all that was processed, and nothing fails. */
  method Answer(api: ApiBackend, ghost t: Tables)
      returns (catalog: Option<CatalogResponse>, connections: Option<seq<Connection>>)
    requires Snapshot(ViewOf(api.db)) == t && GoodRows(t) && AllHealthy(ViewOf(api.db))
    requires ViewOf(api.db).items.Some? && ViewOf(api.db).comps.Some?
    requires ViewOf(api.db).piis.Some? && ViewOf(api.db).conns.Some?
    requires api.cache.State().catalog.None? && api.cache.State().connections.None?
    modifies api.cache
    ensures catalog.Some? && Conserves(catalog.value, t) && ListsCatalog(catalog.value, t.items, t.comps, t.piis)
    ensures connections.Some? && multiset(connections.value) == ConnectionsOf(t.conns, t.comps)
    ensures ListsConnections(connections.value, t.conns, t.comps)
  {
    LinkedResolvable(t.items, t.comps, t.conns);
    catalog := api.GetCatalog();
    CatalogConserves(catalog.value, ViewOf(api.db));
    connections := api.GetConnections();
  }

  /** Creates the schema on an empty database and processes the spans; nothing fails. */
  method Load(db: DB, cfg: Config, threshold: int, spans: seq<Span>, cache: ResponseCache)
    requires db.Valid() && db.tables == map[]
    modifies db, cache
    ensures Snapshot(ViewOf(db)) == AccumulatedBy(cfg)(spans) && GoodRows(Snapshot(ViewOf(db))) && AllHealthy(ViewOf(db))
    ensures Present(ViewOf(db)) == Presence(true, true, true, true)
    ensures cache.State() == CacheAfter(old(cache.State()), spans, true)
  {
    var ok := CreateSchema(db);
    ghost var v := ViewOf(db);
    FreshSchemaGood(v);
    var processor := new SpanProcessor(db, cfg, threshold, cache);
    ghost var cuts, ended;
    ok, cuts, ended := processor.Process(spans);
    ProcessFromNew(cfg, v, ViewOf(db), spans, ok);
  }

  /** A service started on an empty database, as main does it. */
  method Start(db: DB, cfg: Config, threshold: int, spans: seq<Span>)
      returns (catalog: Option<CatalogResponse>, connections: Option<seq<Connection>>)
    requires db.Valid() && db.tables == map[]
    modifies db
    ensures catalog.Some? && Conserves(catalog.value, AccumulatedBy(cfg)(spans))
    ensures connections.Some?
    ensures multiset(connections.value) == ConnectionsOf(AccumulatedBy(cfg)(spans).conns, AccumulatedBy(cfg)(spans).comps)
    ensures ReportsCatalog(cfg, spans, catalog.value) && ReportsConnections(cfg, spans, connections.value)
  {
    var api := new ApiBackend(db);
    Load(db, cfg, threshold, spans, api.cache);
    catalog, connections := Answer(api, Snapshot(ViewOf(db)));
    CatalogReports(cfg, spans, catalog.value);
    ConnectionsReport(cfg, spans, connections.value);
  }
}
