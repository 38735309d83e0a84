/** What the two responses show, stated on the responses and the stored rows alone. */
module Listings {
  import opened Values
  import opened Bags
  import opened Combining
  import opened Accumulation
  import opened Integrity
  import opened Query
  import opened Responses
  import opened Catalog

  // ----- statement -----

  /** The row has the string s in the field. */
  predicate Holds(row: Record, field: string, s: string) {
    field in row && row[field] == Str(s)
  }

  /** keys lists the keys of the rows that hold s in the field, each once. */
  ghost predicate ListsKeys(keys: seq<string>, rows: Rows, field: string, s: string) {
    NoDuplicates(keys) && forall k :: k in keys <==> k in rows && Holds(rows[k], field, s)
  }

  ghost predicate ShowsKinds(shown: seq<string>, piis: Rows, keys: seq<string>) {
    |shown| == |keys| && forall i :: 0 <= i < |keys| ==> keys[i] in piis && Holds(piis[keys[i]], "pii_type", shown[i])
  }

  /** The findings of component c: one per row that belongs to it. */
  ghost predicate ListsFindings(shown: seq<string>, piis: Rows, c: string) {
    exists keys :: ListsKeys(keys, piis, "component_id", c) && ShowsKinds(shown, piis, keys)
  }

  ghost predicate ShowsComponent(shown: CatalogComponent, comps: Rows, piis: Rows, c: string) {
    && c in comps && Holds(comps[c], "component_type", shown.kind) && Holds(comps[c], "value", shown.value)
    && ListsFindings(shown.piis, piis, c)
  }

  ghost predicate ShowsComponents(shown: seq<CatalogComponent>, comps: Rows, piis: Rows, keys: seq<string>) {
    |shown| == |keys| && forall i :: 0 <= i < |keys| ==> ShowsComponent(shown[i], comps, piis, keys[i])
  }

  /** The components of app item n: one per row that names it. */
  ghost predicate ListsComponents(shown: seq<CatalogComponent>, comps: Rows, piis: Rows, n: string) {
    exists keys :: ListsKeys(keys, comps, "app_item_name", n) && ShowsComponents(shown, comps, piis, keys)
  }

  /**
   * The catalog shows exactly the stored rows: an item per app item row with its type, under it a
   * component per component row that names it with its type and value, and under that the kind of
   * every finding that belongs to it.  Nothing else is shown.
   */
  ghost predicate ListsCatalog(r: CatalogResponse, items: Rows, comps: Rows, piis: Rows) {
    && r.Keys == items.Keys
    && forall n :: n in r ==>
         r[n].name == n && Holds(items[n], "type", r[n].kind) && ListsComponents(r[n].components, comps, piis, n)
  }

  /** The component with this id, as a connection shows it. */
  ghost predicate ShowsEnd(shown: ConnectionComponent, comps: Rows, id: string) {
    id in comps && Holds(comps[id], "component_type", shown.kind) && Holds(comps[id], "value", shown.value)
  }

  /** The ends of the row, and its components in the stored order. */
  ghost predicate ShowsConnection(shown: Connection, row: Record, comps: Rows) {
    && Holds(row, "source", shown.source) && Holds(row, "destination", shown.destination)
    && "component_ids" in row && row["component_ids"].StrList? && |row["component_ids"].l| == |shown.components|
    && forall i :: 0 <= i < |shown.components| ==> ShowsEnd(shown.components[i], comps, row["component_ids"].l[i])
  }

  ghost predicate ShowsRowsOf(r: seq<Connection>, conns: Rows, comps: Rows, keys: seq<string>) {
    |r| == |keys| && forall i :: 0 <= i < |r| ==> keys[i] in conns && ShowsConnection(r[i], conns[keys[i]], comps)
  }

  /** One connection per stored row, and nothing else. */
  ghost predicate ListsConnections(r: seq<Connection>, conns: Rows, comps: Rows) {
    exists keys: seq<string> ::
      NoDuplicates(keys) && (forall k :: k in keys <==> k in conns) && ShowsRowsOf(r, conns, comps, keys)
  }

  // ----- the catalog -----

  lemma PiisAreEach(piis: Rows, c: string)
    ensures PiisOf(piis, c) == Sum(KeysWith(piis, "component_id", Str(c)), Each(FieldAt(piis, "pii_type")))
  {
    SumAgrees(KeysWith(piis, "component_id", Str(c)), Then(Row(piis), PiiKind()), Each(FieldAt(piis, "pii_type")));
  }

  lemma FindingsListed(shown: seq<string>, piis: Rows, c: string)
    requires AllRows(IsPii, piis) && multiset(shown) == PiisOf(piis, c)
    ensures ListsFindings(shown, piis, c)
  {
    PiisAreEach(piis, c);
    var keys := BagListed(shown, KeysWith(piis, "component_id", Str(c)), FieldAt(piis, "pii_type"));
    forall i | 0 <= i < |keys|
      ensures keys[i] in piis && Holds(piis[keys[i]], "pii_type", shown[i])
    {
      assert keys[i] in KeysWith(piis, "component_id", Str(c));
      FieldIs(piis, "pii_type", keys[i]);
      assert IsPii(keys[i], piis[keys[i]]);
    }
    assert ListsKeys(keys, piis, "component_id", c) && ShowsKinds(shown, piis, keys);
  }

  lemma ComponentListed(shown: CatalogComponent, comps: Rows, piis: Rows, c: string)
    requires AllRows(IsComponent, comps) && AllRows(IsPii, piis) && c in comps
    requires ViewComponent()(shown) == ComponentAt(piis)(comps[c])
    ensures ShowsComponent(shown, comps, piis, c)
  {
    assert IsComponent(c, comps[c]);
    FindingsListed(shown.piis, piis, c);
  }

  lemma ComponentsListed(shown: seq<CatalogComponent>, comps: Rows, piis: Rows, n: string)
    requires AllRows(IsComponent, comps) && AllRows(IsPii, piis)
    requires Gather(shown, One(ViewComponent())) == ComponentsOf(comps, piis, n)
    ensures ListsComponents(shown, comps, piis, n)
  {
    var all, f := KeysWith(comps, "app_item_name", Str(n)), After(ComponentAt(piis), Row(comps));
    var keys := GatherListed(shown, ViewComponent(), all, f);
    forall i | 0 <= i < |keys|
      ensures ShowsComponent(shown[i], comps, piis, keys[i])
    {
      assert keys[i] in all;
      assert f(keys[i]) == ComponentAt(piis)(comps[keys[i]]);
      ComponentListed(shown[i], comps, piis, keys[i]);
    }
    assert ListsKeys(keys, comps, "app_item_name", n) && ShowsComponents(shown, comps, piis, keys);
  }

  /** A response that is the catalog of well-formed rows lists exactly these rows. */
  lemma CatalogListed(r: CatalogResponse, items: Rows, comps: Rows, piis: Rows)
    requires AllRows(IsItem, items) && AllRows(IsComponent, comps) && AllRows(IsPii, piis)
    requires ViewCatalog(r) == CatalogOf(items, comps, piis)
    ensures ListsCatalog(r, items, comps, piis)
  {
    assert r.Keys == ViewCatalog(r).Keys == CatalogOf(items, comps, piis).Keys == items.Keys;
    forall n | n in r
      ensures r[n].name == n && Holds(items[n], "type", r[n].kind) && ListsComponents(r[n].components, comps, piis, n)
    {
      assert ViewItem(r[n]) == ViewCatalog(r)[n] == CatalogOf(items, comps, piis)[n];
      assert IsItem(n, items[n]);
      ComponentsListed(r[n].components, comps, piis, n);
    }
  }

  // ----- the connections -----

  lemma ConnectionShown(row: Record, comps: Rows, k: string)
    requires IsConnection(k, row) && AllRows(IsComponent, comps) && AllIn(Ids(row), comps.Keys)
    ensures ShowsConnection(ConnectionAt(comps)(row), row, comps)
  {
    var shown, ids := ConnectionAt(comps)(row), Ids(row);
    forall i | 0 <= i < |ids|
      ensures ShowsEnd(shown.components[i], comps, ids[i])
    {
      assert ids[i] in comps.Keys;
      assert IsComponent(ids[i], comps[ids[i]]);
      assert Row(comps)(ids[i]) == comps[ids[i]];
      assert shown.components[i] == ConnectionComponentAt(comps)(ids[i]);
    }
  }

  /** Responses that are those of well-formed, resolvable rows list exactly these rows. */
  lemma ConnectionsListed(r: seq<Connection>, conns: Rows, comps: Rows)
    requires AllRows(IsConnection, conns) && AllRows(IsComponent, comps) && Resolvable(conns, comps)
    requires multiset(r) == ConnectionsOf(conns, comps)
    ensures ListsConnections(r, conns, comps)
  {
    var keys := BagListed(r, conns.Keys, After(ConnectionAt(comps), Row(conns)));
    forall i | 0 <= i < |r|
      ensures keys[i] in conns && ShowsConnection(r[i], conns[keys[i]], comps)
    {
      assert keys[i] in conns.Keys;
      var row := conns[keys[i]];
      assert Resolved(comps.Keys)(keys[i], row) && IsConnection(keys[i], row);
      ConnectionShown(row, comps, keys[i]);
    }
    assert ShowsRowsOf(r, conns, comps, keys);
  }
}
