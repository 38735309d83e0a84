/** What the two responses report about the spans that were processed, from their attributes. */
module Reports {
  import opened Values
  import opened Spans
  import opened Accumulation
  import opened Responses
  import opened StoredRows
  import opened Listings

  // ----- the last and the first span of a kind -----

  lemma {:induction false} LastExists(cfg: Config, spans: seq<Span>, c: string) returns (i: int)
    requires exists j :: 0 <= j < |spans| && HasComponent(cfg, spans[j], c)
    ensures LastComponent(cfg, spans, c, i)
  {
    i := |spans| - 1;
    while !HasComponent(cfg, spans[i], c)
      invariant 0 <= i < |spans|
      invariant forall j :: i < j < |spans| ==> !HasComponent(cfg, spans[j], c)
      decreases i
    {
      i := i - 1;
    }
  }

  lemma FirstFoundExists(cfg: Config, spans: seq<Span>, id: string) returns (i: int, c: string)
    requires exists j, b :: 0 <= j < |spans| && Found(cfg, spans[j], b, id)
    ensures FirstFound(cfg, spans, c, id, i)
  {
    i := 0;
    while !exists b :: Found(cfg, spans[i], b, id)
      invariant 0 <= i < |spans|
      invariant forall j, b :: 0 <= j < i ==> !Found(cfg, spans[j], b, id)
      decreases |spans| - i
    {
      i := i + 1;
    }
    c :| Found(cfg, spans[i], c, id);
  }

  lemma FirstLinkExists(spans: seq<Span>, k: string) returns (i: int)
    requires exists j :: 0 <= j < |spans| && Links(spans[j], k)
    ensures FirstLink(spans, k, i)
  {
    i := 0;
    while !Links(spans[i], k)
      invariant 0 <= i < |spans|
      invariant forall j :: 0 <= j < i ==> !Links(spans[j], k)
      decreases |spans| - i
    {
      i := i + 1;
    }
  }

  // ----- the catalog -----

  /** Component c as span i describes it: kind and value read off the span. */
  ghost predicate Describes(cfg: Config, s: Span, kind: string, value: string) {
    var part := HandlerFor(cfg, s).component(s.attrs);
    kind == part.kind && value == part.value
  }

  /** The kinds of personal data found for component c, each once. */
  ghost predicate ReportsFindings(cfg: Config, spans: seq<Span>, c: string, piis: seq<string>) {
    && NoDuplicates(piis)
    && forall kind :: kind in piis <==> exists i :: FirstFound(cfg, spans, c, c + ":" + kind, i)
  }

  ghost predicate ReportsComponent(cfg: Config, spans: seq<Span>, c: string, shown: CatalogComponent) {
    && (forall i :: LastComponent(cfg, spans, c, i) ==> Describes(cfg, spans[i], shown.kind, shown.value))
    && ReportsFindings(cfg, spans, c, shown.piis)
  }

  /** The last span with component c has destination n. */
  ghost predicate HostedBy(cfg: Config, spans: seq<Span>, c: string, n: string) {
    exists i :: LastComponent(cfg, spans, c, i) && Attr(spans[i].attrs, "ebpf.destination") == n
  }

  ghost predicate ReportsComponents(cfg: Config, spans: seq<Span>, shown: seq<CatalogComponent>, cs: seq<string>) {
    |cs| == |shown| && forall j :: 0 <= j < |cs| ==> ReportsComponent(cfg, spans, cs[j], shown[j])
  }

  /** The components of app item n: those whose last span has it as destination, each once. */
  ghost predicate ReportsItem(cfg: Config, spans: seq<Span>, n: string, shown: seq<CatalogComponent>) {
    exists cs: seq<string> ::
      NoDuplicates(cs) && (forall c :: c in cs <==> HostedBy(cfg, spans, c, n)) && ReportsComponents(cfg, spans, shown, cs)
  }

  /** The type that a span gives to an app item it names. */
  ghost predicate PlaysRole(cfg: Config, s: Span, n: string, kind: string) {
    kind == if Attr(s.attrs, "ebpf.destination") == n then HandlerFor(cfg, s).destinationType
            else if n == "internet" then "INTERNET" else "SERVICE"
  }

  /**
   * The catalog reports the spans: an app item per source and destination, with the type the last span
   * naming it gives it, and under each the components that it hosts, with what was found in them.
   */
  ghost predicate ReportsCatalog(cfg: Config, spans: seq<Span>, r: CatalogResponse) {
    && (forall n :: n in r <==> exists i :: 0 <= i < |spans| && NamedBy(spans[i], n))
    && (forall n, i :: LastNamed(spans, n, i) ==> n in r && PlaysRole(cfg, spans[i], n, r[n].kind))
    && (forall n :: n in r ==> r[n].name == n && ReportsItem(cfg, spans, n, r[n].components))
  }

  /** The row has the string s, and no other, in the field. */
  ghost predicate HoldsOnly(row: Record, field: string, s: string) {
    forall x :: Holds(row, field, x) <==> x == s
  }

  lemma ComponentFields(row: Record, c: string, n: string, kind: string, value: string)
    requires row == map["id" := Str(c), "app_item_name" := Str(n), "component_type" := Str(kind), "value" := Str(value)]
    ensures HoldsOnly(row, "app_item_name", n) && HoldsOnly(row, "component_type", kind) && HoldsOnly(row, "value", value)
  {
  }

  lemma FindingFields(row: Record, id: string, c: string, kind: string)
    requires row == map["id" := Str(id), "component_id" := Str(c), "pii_type" := Str(kind)]
    ensures HoldsOnly(row, "component_id", c) && HoldsOnly(row, "pii_type", kind)
  {
  }

  lemma ConnectionFields(row: Record, k: string, source: string, destination: string, ids: seq<string>)
    requires row == map["id" := Str(k), "source" := Str(source), "destination" := Str(destination),
                        "component_ids" := StrList(ids)]
    ensures HoldsOnly(row, "source", source) && HoldsOnly(row, "destination", destination)
    ensures Lookup(row, "component_ids") == StrList(ids)
  {
  }

  ghost predicate RowDescribes(cfg: Config, s: Span, row: Record) {
    var part := HandlerFor(cfg, s).component(s.attrs);
    && HoldsOnly(row, "app_item_name", Attr(s.attrs, "ebpf.destination"))
    && HoldsOnly(row, "component_type", part.kind) && HoldsOnly(row, "value", part.value)
  }

  /** What a component's row holds. */
  lemma ComponentRowHolds(cfg: Config, spans: seq<Span>, c: string, i: int)
    requires LastComponent(cfg, spans, c, i)
    ensures var t := Accumulated(DeltaOf(cfg), spans).comps; c in t && RowDescribes(cfg, spans[i], t[c])
  {
    StoredComponents(cfg, spans, c);
    var part := HandlerFor(cfg, spans[i]).component(spans[i].attrs);
    ComponentFields(Accumulated(DeltaOf(cfg), spans).comps[c], c, Attr(spans[i].attrs, "ebpf.destination"),
                    part.kind, part.value);
  }

  lemma StoredIsLast(cfg: Config, spans: seq<Span>, c: string)
    ensures c in Accumulated(DeltaOf(cfg), spans).comps <==> exists i :: LastComponent(cfg, spans, c, i)
  {
    StoredComponents(cfg, spans, c);
    if exists j :: 0 <= j < |spans| && HasComponent(cfg, spans[j], c) {
      var i := LastExists(cfg, spans, c);
    }
  }

  lemma HostedIsStored(cfg: Config, spans: seq<Span>, c: string, n: string)
    ensures var t := Accumulated(DeltaOf(cfg), spans).comps;
      c in t && Holds(t[c], "app_item_name", n) <==> HostedBy(cfg, spans, c, n)
  {
    StoredIsLast(cfg, spans, c);
    forall i | LastComponent(cfg, spans, c, i)
      ensures var t := Accumulated(DeltaOf(cfg), spans).comps;
        c in t && (Holds(t[c], "app_item_name", n) <==> n == Attr(spans[i].attrs, "ebpf.destination"))
    {
      ComponentRowHolds(cfg, spans, c, i);
    }
  }

  /** What a finding's row holds. */
  lemma FindingRowHolds(cfg: Config, spans: seq<Span>, c: string, id: string, i: int) returns (found: string)
    requires FirstFound(cfg, spans, c, id, i)
    ensures id == c + ":" + found
    ensures var t := Accumulated(DeltaOf(cfg), spans).piis;
      id in t && HoldsOnly(t[id], "component_id", c) && HoldsOnly(t[id], "pii_type", found)
  {
    StoredFindings(cfg, spans, id);
    var d :| Finds(cfg, spans[i], d, c, id);
    found := cfg.detectors[d].kind;
    FindingFields(Accumulated(DeltaOf(cfg), spans).piis[id], id, c, found);
  }

  lemma StoredIsFound(cfg: Config, spans: seq<Span>, id: string)
    ensures id in Accumulated(DeltaOf(cfg), spans).piis <==> exists i, b :: FirstFound(cfg, spans, b, id, i)
  {
    StoredFindings(cfg, spans, id);
    if exists j, b :: 0 <= j < |spans| && Found(cfg, spans[j], b, id) {
      var i, b := FirstFoundExists(cfg, spans, id);
    }
  }

  /** The row under a finding's id is that of the first span that has it. */
  lemma FindingRow(cfg: Config, spans: seq<Span>, id: string, c: string, kind: string)
    ensures var t := Accumulated(DeltaOf(cfg), spans).piis;
      id in t && Holds(t[id], "component_id", c) && Holds(t[id], "pii_type", kind) <==>
        id == c + ":" + kind && exists i :: FirstFound(cfg, spans, c, id, i)
  {
    StoredIsFound(cfg, spans, id);
    forall b, i | FirstFound(cfg, spans, b, id, i)
      ensures RowFinds(Accumulated(DeltaOf(cfg), spans).piis, id, b)
    {
      var found := FindingRowHolds(cfg, spans, b, id, i);
    }
    RowOfFirst(cfg, spans, Accumulated(DeltaOf(cfg), spans).piis, id, c, kind);
  }

  /** The row under the id is of component c, and its kind is the rest of the id. */
  ghost predicate RowFinds(t: Rows, id: string, c: string) {
    exists found :: id == c + ":" + found
      && id in t && HoldsOnly(t[id], "component_id", c) && HoldsOnly(t[id], "pii_type", found)
  }

  lemma RowOfFirst(cfg: Config, spans: seq<Span>, t: Rows, id: string, c: string, kind: string)
    requires id in t <==> exists i, b :: FirstFound(cfg, spans, b, id, i)
    requires forall b, i :: FirstFound(cfg, spans, b, id, i) ==> RowFinds(t, id, b)
    ensures id in t && Holds(t[id], "component_id", c) && Holds(t[id], "pii_type", kind) <==>
            id == c + ":" + kind && exists i :: FirstFound(cfg, spans, c, id, i)
  {
    if i, b :| FirstFound(cfg, spans, b, id, i) {
      var found :| id == b + ":" + found && HoldsOnly(t[id], "component_id", b) && HoldsOnly(t[id], "pii_type", found);
      if j :| FirstFound(cfg, spans, c, id, j) {
        var other :| id == c + ":" + other && HoldsOnly(t[id], "component_id", c) && HoldsOnly(t[id], "pii_type", other);
        if id == c + ":" + kind { SameSuffix(c, other, kind); }
      }
    }
  }

  lemma SameSuffix(c: string, a: string, b: string)
    requires c + ":" + a == c + ":" + b
    ensures a == b
  {
    assert (c + ":" + a)[|c| + 1..] == a && (c + ":" + b)[|c| + 1..] == b;
  }

  lemma FindingsReported(cfg: Config, spans: seq<Span>, c: string, shown: seq<string>)
    requires ListsFindings(shown, Accumulated(DeltaOf(cfg), spans).piis, c)
    ensures ReportsFindings(cfg, spans, c, shown)
  {
    var t := Accumulated(DeltaOf(cfg), spans).piis;
    var keys :| ListsKeys(keys, t, "component_id", c) && ShowsKinds(shown, t, keys);
    forall i | 0 <= i < |keys|
      ensures keys[i] == c + ":" + shown[i]
    {
      assert keys[i] in keys;
      FindingRow(cfg, spans, keys[i], c, shown[i]);
    }
    forall i, j | 0 <= i < j < |shown|
      ensures shown[i] != shown[j]
    {
      assert keys[i] != keys[j];
    }
    forall kind
      ensures kind in shown <==> exists i :: FirstFound(cfg, spans, c, c + ":" + kind, i)
    {
      var id := c + ":" + kind;
      FindingRow(cfg, spans, id, c, kind);
      if i :| 0 <= i < |shown| && shown[i] == kind {
        assert keys[i] in keys && keys[i] == id;
      }
      if exists i :: FirstFound(cfg, spans, c, id, i) {
        assert id in keys;
        var i :| 0 <= i < |keys| && keys[i] == id;
        SameSuffix(c, shown[i], kind);
      }
    }
  }

  lemma ComponentReported(cfg: Config, spans: seq<Span>, c: string, shown: CatalogComponent)
    requires var t := Accumulated(DeltaOf(cfg), spans); ShowsComponent(shown, t.comps, t.piis, c)
    ensures ReportsComponent(cfg, spans, c, shown)
  {
    forall i | LastComponent(cfg, spans, c, i)
      ensures Describes(cfg, spans[i], shown.kind, shown.value)
    {
      ComponentRowHolds(cfg, spans, c, i);
    }
    FindingsReported(cfg, spans, c, shown.piis);
  }

  lemma ItemReported(cfg: Config, spans: seq<Span>, n: string, shown: seq<CatalogComponent>)
    requires var t := Accumulated(DeltaOf(cfg), spans); ListsComponents(shown, t.comps, t.piis, n)
    ensures ReportsItem(cfg, spans, n, shown)
  {
    var t := Accumulated(DeltaOf(cfg), spans);
    var cs :| ListsKeys(cs, t.comps, "app_item_name", n) && ShowsComponents(shown, t.comps, t.piis, cs);
    forall c
      ensures c in cs <==> HostedBy(cfg, spans, c, n)
    {
      HostedIsStored(cfg, spans, c, n);
    }
    forall j | 0 <= j < |cs|
      ensures ReportsComponent(cfg, spans, cs[j], shown[j])
    {
      ComponentReported(cfg, spans, cs[j], shown[j]);
    }
    assert ReportsComponents(cfg, spans, shown, cs);
  }

  /** The row of app item n, if any, has the type that the last span naming it gives. */
  ghost predicate ItemStored(cfg: Config, spans: seq<Span>, t: Rows, n: string) {
    && (n in t <==> exists i :: 0 <= i < |spans| && NamedBy(spans[i], n))
    && forall i, kind :: LastNamed(spans, n, i) && n in t && Holds(t[n], "type", kind) ==> PlaysRole(cfg, spans[i], n, kind)
  }

  lemma ItemIsStored(cfg: Config, spans: seq<Span>, n: string)
    ensures ItemStored(cfg, spans, Accumulated(DeltaOf(cfg), spans).items, n)
  {
    StoredItems(cfg, spans, n);
  }

  /** However app item n is shown to list its components, it reports them. */
  ghost predicate ItemReports(cfg: Config, spans: seq<Span>, t: Tables, n: string) {
    forall shown :: ListsComponents(shown, t.comps, t.piis, n) ==> ReportsItem(cfg, spans, n, shown)
  }

  /** A catalog that lists what the spans accumulate to reports the spans. */
  lemma CatalogReports(cfg: Config, spans: seq<Span>, r: CatalogResponse)
    requires var t := Accumulated(DeltaOf(cfg), spans); ListsCatalog(r, t.items, t.comps, t.piis)
    ensures ReportsCatalog(cfg, spans, r)
  {
    var t := Accumulated(DeltaOf(cfg), spans);
    forall n
      ensures ItemStored(cfg, spans, t.items, n) && ItemReports(cfg, spans, t, n)
    {
      ItemIsStored(cfg, spans, n);
      forall shown | ListsComponents(shown, t.comps, t.piis, n)
        ensures ReportsItem(cfg, spans, n, shown)
      {
        ItemReported(cfg, spans, n, shown);
      }
    }
    AllItemsReported(cfg, spans, t, r);
  }

  lemma AllItemsReported(cfg: Config, spans: seq<Span>, t: Tables, r: CatalogResponse)
    requires ListsCatalog(r, t.items, t.comps, t.piis)
    requires forall n :: ItemStored(cfg, spans, t.items, n) && ItemReports(cfg, spans, t, n)
    ensures ReportsCatalog(cfg, spans, r)
  {
    forall n
      ensures n in r <==> exists i :: 0 <= i < |spans| && NamedBy(spans[i], n)
      ensures forall i :: LastNamed(spans, n, i) ==> n in r && PlaysRole(cfg, spans[i], n, r[n].kind)
    {
      assert ItemStored(cfg, spans, t.items, n);
    }
    forall n | n in r
      ensures r[n].name == n && ReportsItem(cfg, spans, n, r[n].components)
    {
      assert ItemReports(cfg, spans, t, n);
    }
  }

  /**
   * In particular: whatever span i brought and no later span described anew is shown under the app
   * item that the span's destination attribute names.
   */
  lemma ShownUnderDestination(cfg: Config, spans: seq<Span>, r: CatalogResponse, c: string, i: int)
    requires ReportsCatalog(cfg, spans, r) && LastComponent(cfg, spans, c, i)
    ensures var n := Attr(spans[i].attrs, "ebpf.destination"); n in r && exists shown ::
      shown in r[n].components && Describes(cfg, spans[i], shown.kind, shown.value)
  {
    var n := Attr(spans[i].attrs, "ebpf.destination");
    assert NamedBy(spans[i], n);
    assert HostedBy(cfg, spans, c, n);
    HostedIsShown(cfg, spans, n, r[n].components, c, i);
  }

  lemma HostedIsShown(cfg: Config, spans: seq<Span>, n: string, shown: seq<CatalogComponent>, c: string, i: int)
    requires ReportsItem(cfg, spans, n, shown) && HostedBy(cfg, spans, c, n) && LastComponent(cfg, spans, c, i)
    ensures exists x :: x in shown && Describes(cfg, spans[i], x.kind, x.value)
  {
    var cs: seq<string> :|
      NoDuplicates(cs) && (forall c :: c in cs <==> HostedBy(cfg, spans, c, n)) && ReportsComponents(cfg, spans, shown, cs);
    assert c in cs;
    var j :| 0 <= j < |cs| && cs[j] == c;
    assert ReportsComponent(cfg, spans, cs[j], shown[j]);
    assert shown[j] in shown;
  }

  // ----- the connections -----

  ghost predicate ReportsVisits(cfg: Config, spans: seq<Span>, shown: seq<ConnectionComponent>, ids: seq<string>) {
    && |shown| == |ids|
    && forall a, i :: 0 <= a < |ids| && LastComponent(cfg, spans, ids[a], i) ==>
         Describes(cfg, spans[i], shown[a].kind, shown[a].value)
  }

  /** Source and destination of the connection's spans, and the components they visit, in order. */
  ghost predicate ReportsConnection(cfg: Config, spans: seq<Span>, k: string, shown: Connection) {
    && (forall i :: FirstLink(spans, k, i) ==>
          shown.source == Attr(spans[i].attrs, "ebpf.source") && shown.destination == Attr(spans[i].attrs, "ebpf.destination"))
    && exists ids :: InVisitOrder(cfg, spans, k, ids) && ReportsVisits(cfg, spans, shown.components, ids)
  }

  ghost predicate ReportsEach(cfg: Config, spans: seq<Span>, r: seq<Connection>, keys: seq<string>) {
    |keys| == |r| && forall j :: 0 <= j < |keys| ==> ReportsConnection(cfg, spans, keys[j], r[j])
  }

  /** One connection per source and destination that some span links. */
  ghost predicate ReportsConnections(cfg: Config, spans: seq<Span>, r: seq<Connection>) {
    exists keys: seq<string> ::
      && NoDuplicates(keys) && (forall k :: k in keys <==> exists i :: FirstLink(spans, k, i))
      && ReportsEach(cfg, spans, r, keys)
  }

  lemma ConnectionRowHolds(cfg: Config, spans: seq<Span>, k: string, i: int)
    requires FirstLink(spans, k, i)
    ensures var t := Accumulated(DeltaOf(cfg), spans).conns;
      && k in t && InVisitOrder(cfg, spans, k, Ids(t[k])) && Lookup(t[k], "component_ids") == StrList(Ids(t[k]))
      && HoldsOnly(t[k], "source", Attr(spans[i].attrs, "ebpf.source"))
      && HoldsOnly(t[k], "destination", Attr(spans[i].attrs, "ebpf.destination"))
  {
    StoredConnections(cfg, spans, k);
    var row := Accumulated(DeltaOf(cfg), spans).conns[k];
    ConnectionFields(row, k, Attr(spans[i].attrs, "ebpf.source"), Attr(spans[i].attrs, "ebpf.destination"), Ids(row));
  }

  lemma StoredIsLinked(cfg: Config, spans: seq<Span>, k: string)
    ensures k in Accumulated(DeltaOf(cfg), spans).conns <==> exists i :: FirstLink(spans, k, i)
  {
    StoredConnections(cfg, spans, k);
    if exists j :: 0 <= j < |spans| && Links(spans[j], k) {
      var i := FirstLinkExists(spans, k);
    }
  }

  lemma VisitsReported(cfg: Config, spans: seq<Span>, shown: seq<ConnectionComponent>, ids: seq<string>)
    requires |shown| == |ids|
    requires var t := Accumulated(DeltaOf(cfg), spans); forall a :: 0 <= a < |ids| ==> ShowsEnd(shown[a], t.comps, ids[a])
    ensures ReportsVisits(cfg, spans, shown, ids)
  {
    forall a, i | 0 <= a < |ids| && LastComponent(cfg, spans, ids[a], i)
      ensures Describes(cfg, spans[i], shown[a].kind, shown[a].value)
    {
      ComponentRowHolds(cfg, spans, ids[a], i);
    }
  }

  lemma ConnectionReported(cfg: Config, spans: seq<Span>, k: string, shown: Connection)
    requires var t := Accumulated(DeltaOf(cfg), spans); k in t.conns && ShowsConnection(shown, t.conns[k], t.comps)
    ensures ReportsConnection(cfg, spans, k, shown)
  {
    var row := Accumulated(DeltaOf(cfg), spans).conns[k];
    StoredIsLinked(cfg, spans, k);
    forall i | FirstLink(spans, k, i)
      ensures shown.source == Attr(spans[i].attrs, "ebpf.source")
      ensures shown.destination == Attr(spans[i].attrs, "ebpf.destination")
      ensures InVisitOrder(cfg, spans, k, Ids(row))
    {
      ConnectionRowHolds(cfg, spans, k, i);
    }
    VisitsReported(cfg, spans, shown.components, Ids(row));
  }

  /** Connections that list what the spans accumulate to report the spans. */
  lemma ConnectionsReport(cfg: Config, spans: seq<Span>, r: seq<Connection>)
    requires var t := Accumulated(DeltaOf(cfg), spans); ListsConnections(r, t.conns, t.comps)
    ensures ReportsConnections(cfg, spans, r)
  {
    var t := Accumulated(DeltaOf(cfg), spans);
    forall k
      ensures k in t.conns <==> exists i :: FirstLink(spans, k, i)
      ensures ReportedAs(cfg, spans, t, k)
    {
      StoredIsLinked(cfg, spans, k);
      forall shown | k in t.conns && ShowsConnection(shown, t.conns[k], t.comps)
        ensures ReportsConnection(cfg, spans, k, shown)
      {
        ConnectionReported(cfg, spans, k, shown);
      }
    }
    AllReported(cfg, spans, t, r);
  }

  ghost predicate ReportedAs(cfg: Config, spans: seq<Span>, t: Tables, k: string) {
    forall shown :: k in t.conns && ShowsConnection(shown, t.conns[k], t.comps) ==> ReportsConnection(cfg, spans, k, shown)
  }

  lemma AllReported(cfg: Config, spans: seq<Span>, t: Tables, r: seq<Connection>)
    requires ListsConnections(r, t.conns, t.comps)
    requires forall k :: k in t.conns <==> exists i :: FirstLink(spans, k, i)
    requires forall k :: ReportedAs(cfg, spans, t, k)
    ensures ReportsConnections(cfg, spans, r)
  {
    var keys: seq<string> :|
      NoDuplicates(keys) && (forall k :: k in keys <==> k in t.conns) && ShowsRowsOf(r, t.conns, t.comps, keys);
    forall j | 0 <= j < |keys|
      ensures ReportsConnection(cfg, spans, keys[j], r[j])
    {
      assert ReportedAs(cfg, spans, t, keys[j]);
    }
    assert ReportsEach(cfg, spans, r, keys);
  }
}
