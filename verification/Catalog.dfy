/** What the API reports: the catalog and the connections as functions of the stored rows. */
module Catalog {
  import opened Values
  import opened Bags
  import opened Combining
  import opened Accumulation
  import opened Integrity
  import opened Query
  import opened Responses

  // ----- responses up to the order of their lists -----

  datatype ComponentView = ComponentView(kind: string, value: string, piis: multiset<string>)

  datatype ItemView = ItemView(name: string, kind: string, components: multiset<ComponentView>)

  type CatalogView = map<string, ItemView>

  ghost function ViewComponent(): CatalogComponent -> ComponentView {
    (c: CatalogComponent) => ComponentView(c.kind, c.value, multiset(c.piis))
  }

  ghost function ViewItem(a: AppItem): ItemView {
    ItemView(a.name, a.kind, Gather(a.components, One(ViewComponent())))
  }

  ghost function ViewCatalog(r: CatalogResponse): CatalogView {
    map n | n in r :: ViewItem(r[n])
  }

  // ----- the catalog -----

  ghost function PiiKind(): Record -> multiset<string> {
    r => multiset{StringField(r, "pii_type")}
  }

  /** The kinds of personal data recorded for a component. */
  ghost function PiisOf(piis: Rows, id: string): multiset<string> {
    Sum(KeysWith(piis, "component_id", Str(id)), Then(Row(piis), PiiKind()))
  }

  ghost function ComponentAt(piis: Rows): Record -> ComponentView {
    r => ComponentView(StringField(r, "component_type"), StringField(r, "value"), PiisOf(piis, StringField(r, "id")))
  }

  /** The components of an app item. */
  ghost function ComponentsOf(comps: Rows, piis: Rows, name: string): multiset<ComponentView> {
    Sum(KeysWith(comps, "app_item_name", Str(name)), Each(After(ComponentAt(piis), Row(comps))))
  }

  ghost function CatalogOf(items: Rows, comps: Rows, piis: Rows): CatalogView {
    map n | n in items :: ItemView(n, StringField(items[n], "type"), ComponentsOf(comps, piis, n))
  }

  // ----- the connections -----

  ghost function ConnectionComponentAt(comps: Rows): string -> ConnectionComponent {
    id => ConnectionComponent(StringField(Row(comps)(id), "component_type"), StringField(Row(comps)(id), "value"))
  }

  /** One response per connection row, its components in stored order. */
  ghost function ConnectionAt(comps: Rows): Record -> Connection {
    r => Connection(StringField(r, "source"), StringField(r, "destination"),
                    seq(|Ids(r)|, i requires 0 <= i < |Ids(r)| => ConnectionComponentAt(comps)(Ids(r)[i])))
  }

  ghost function ConnectionsOf(conns: Rows, comps: Rows): multiset<Connection> {
    Sum(conns.Keys, Each(After(ConnectionAt(comps), Row(conns))))
  }

  /** Every component that a connection lists can be found. */
  ghost function Resolved(comps: set<string>): (string, Record) -> bool {
    (k, r) => AllIn(Ids(r), comps)
  }

  ghost predicate Resolvable(conns: Rows, comps: Rows) {
    AllRows(Resolved(comps.Keys), conns)
  }

  lemma LinkedResolvable(items: Rows, comps: Rows, conns: Rows)
    requires Linked(items, comps, conns)
    ensures Resolvable(conns, comps)
  {
    forall k | k in conns
      ensures Resolved(comps.Keys)(k, conns[k])
    {
      assert HasEnds(items.Keys, comps.Keys)(k, conns[k]);
    }
  }

  // ----- conservation -----

  ghost function ItemComponents(view: CatalogView): string -> multiset<ComponentView> {
    n => if n in view then view[n].components else multiset{}
  }

  ghost function PiisShown(): ComponentView -> multiset<string> {
    (c: ComponentView) => c.piis
  }

  ghost function ItemPiis(view: CatalogView): string -> multiset<string> {
    n => Flat(ItemComponents(view)(n), PiisShown())
  }

  /** All components that a catalog lists, under whichever app item. */
  ghost function ComponentsIn(view: CatalogView): multiset<ComponentView> {
    Sum(view.Keys, ItemComponents(view))
  }

  /** All findings that a catalog lists, under whichever component. */
  ghost function PiisIn(view: CatalogView): multiset<string> {
    Sum(view.Keys, ItemPiis(view))
  }

  ghost function FieldAt(rows: Rows, field: string): string -> string {
    k => StringField(Row(rows)(k), field)
  }

  lemma FieldIs(rows: Rows, field: string, k: string)
    requires k in rows
    ensures FieldAt(rows, field)(k) == StringField(rows[k], field)
  {
    assert Row(rows)(k) == rows[k];
  }

  lemma OwnedGroup(comps: Rows, name: string)
    requires AllRows(IsComponent, comps)
    ensures Group(comps.Keys, FieldAt(comps, "app_item_name"), name) == KeysWith(comps, "app_item_name", Str(name))
  {
    forall k | k in comps
      ensures FieldAt(comps, "app_item_name")(k) == name <==> k in KeysWith(comps, "app_item_name", Str(name))
    {
      FieldIs(comps, "app_item_name", k);
      assert IsComponent(k, comps[k]);
    }
  }

  lemma AttachedGroup(piis: Rows, id: string)
    requires AllRows(IsPii, piis)
    ensures Group(piis.Keys, FieldAt(piis, "component_id"), id) == KeysWith(piis, "component_id", Str(id))
  {
    forall k | k in piis
      ensures FieldAt(piis, "component_id")(k) == id <==> k in KeysWith(piis, "component_id", Str(id))
    {
      FieldIs(piis, "component_id", k);
      assert IsPii(k, piis[k]);
    }
  }

  lemma AllOwned(items: Rows, comps: Rows)
    requires Owned(items, comps)
    ensures Bags.Grouped(comps.Keys, FieldAt(comps, "app_item_name"), items.Keys) == comps.Keys
  {
    forall k | k in comps
      ensures FieldAt(comps, "app_item_name")(k) in items.Keys
    {
      FieldIs(comps, "app_item_name", k);
      assert HasOwner(items.Keys)(k, comps[k]);
    }
  }

  lemma AllAttached(comps: Rows, piis: Rows)
    requires Attached(comps, piis)
    ensures Bags.Grouped(piis.Keys, FieldAt(piis, "component_id"), comps.Keys) == piis.Keys
  {
    forall k | k in piis
      ensures FieldAt(piis, "component_id")(k) in comps.Keys
    {
      FieldIs(piis, "component_id", k);
      assert HasComponent(comps.Keys)(k, piis[k]);
    }
  }

  /** Summing over the components item by item is summing over all components. */
  lemma ByItem<T>(items: Rows, comps: Rows, f: string -> multiset<T>, g: string -> multiset<T>)
    requires AllRows(IsComponent, comps) && Owned(items, comps)
    requires forall n :: n in items.Keys ==> g(n) == Sum(KeysWith(comps, "app_item_name", Str(n)), f)
    ensures Sum(items.Keys, g) == Sum(comps.Keys, f)
  {
    var owner := FieldAt(comps, "app_item_name");
    forall n | n in items.Keys
      ensures g(n) == ByGroup(comps.Keys, owner, f)(n)
    {
      OwnedGroup(comps, n);
    }
    SumAgrees(items.Keys, g, ByGroup(comps.Keys, owner, f));
    SumByGroup(items.Keys, comps.Keys, owner, f);
    AllOwned(items, comps);
  }

  lemma ByComponent(comps: Rows, piis: Rows, f: string -> multiset<string>, g: string -> multiset<string>)
    requires AllRows(IsPii, piis) && Attached(comps, piis)
    requires forall c :: c in comps.Keys ==> g(c) == Sum(KeysWith(piis, "component_id", Str(c)), f)
    ensures Sum(comps.Keys, g) == Sum(piis.Keys, f)
  {
    var owner := FieldAt(piis, "component_id");
    forall c | c in comps.Keys
      ensures g(c) == ByGroup(piis.Keys, owner, f)(c)
    {
      AttachedGroup(piis, c);
    }
    SumAgrees(comps.Keys, g, ByGroup(piis.Keys, owner, f));
    SumByGroup(comps.Keys, piis.Keys, owner, f);
    AllAttached(comps, piis);
  }

  /** The catalog lists every component row exactly once: nothing is lost, repeated or made up. */
  lemma ComponentsConserved(items: Rows, comps: Rows, piis: Rows)
    requires AllRows(IsComponent, comps) && Owned(items, comps)
    ensures ComponentsIn(CatalogOf(items, comps, piis)) == Sum(comps.Keys, Each(After(ComponentAt(piis), Row(comps))))
    ensures |ComponentsIn(CatalogOf(items, comps, piis))| == |comps|
  {
    var view, f := CatalogOf(items, comps, piis), Each(After(ComponentAt(piis), Row(comps)));
    ByItem(items, comps, f, ItemComponents(view));
    assert view.Keys == items.Keys;
    SumCounts(comps.Keys, f);
    assert |comps| == |comps.Keys|;
  }

  lemma ShownAt(comps: Rows, piis: Rows, keys: set<string>, g: string -> multiset<string>)
    requires AllRows(IsComponent, comps) && keys <= comps.Keys
    requires forall k :: k in keys ==> g(k) == PiisOf(piis, k)
    ensures Flat(Sum(keys, Each(After(ComponentAt(piis), Row(comps)))), PiisShown()) == Sum(keys, g)
  {
    var view := After(ComponentAt(piis), Row(comps));
    FlatOfSum(keys, view, PiisShown());
    forall k | k in keys
      ensures Then(view, PiisShown())(k) == g(k)
    {
      assert IsComponent(k, comps[k]);
      assert StringField(comps[k], "id") == k;
    }
    SumAgrees(keys, Then(view, PiisShown()), g);
  }

  ghost function PiisAt(piis: Rows): string -> multiset<string> {
    id => PiisOf(piis, id)
  }

  lemma PiisByItem(items: Rows, comps: Rows, piis: Rows)
    requires AllRows(IsComponent, comps) && Owned(items, comps)
    ensures PiisIn(CatalogOf(items, comps, piis)) == Sum(comps.Keys, PiisAt(piis))
  {
    var view := CatalogOf(items, comps, piis);
    assert view.Keys == items.Keys;
    forall n | n in items.Keys
      ensures ItemPiis(view)(n) == Sum(KeysWith(comps, "app_item_name", Str(n)), PiisAt(piis))
    {
      assert ItemComponents(view)(n) == ComponentsOf(comps, piis, n);
      ShownAt(comps, piis, KeysWith(comps, "app_item_name", Str(n)), PiisAt(piis));
    }
    ByItem(items, comps, PiisAt(piis), ItemPiis(view));
  }

  /** The catalog lists every finding exactly once. */
  lemma PiisConserved(items: Rows, comps: Rows, piis: Rows)
    requires AllRows(IsComponent, comps) && AllRows(IsPii, piis) && Owned(items, comps) && Attached(comps, piis)
    ensures PiisIn(CatalogOf(items, comps, piis)) == Sum(piis.Keys, Then(Row(piis), PiiKind()))
    ensures |PiisIn(CatalogOf(items, comps, piis))| == |piis|
  {
    PiisByItem(items, comps, piis);
    ByComponent(comps, piis, Then(Row(piis), PiiKind()), PiisAt(piis));
    SumCounts(piis.Keys, Then(Row(piis), PiiKind()));
    assert |piis| == |piis.Keys|;
  }
}
