/** Assembling a catalog from references: what the API's loops build from rows that change under them. */
module HeldReads {
  import opened Values
  import opened Bags
  import opened Combining
  import opened Accumulation
  import opened Query
  import opened Catalog
  import opened Api
  import opened Protocol
  import opened Service

  /** Groups of references: grouped as the table was when it was read, with contents as looked at. */
  ghost predicate HeldGroup(groups: map<Value, seq<Record>>, h: Held, field: string, v: Value) {
    && (v in groups <==> KeysWith(h.read, field, v) != {})
    && (v in groups ==> multiset(groups[v]) == RowsAt(h.rows, KeysWith(h.read, field, v)))
  }

  ghost predicate HeldGroups(groups: map<Value, seq<Record>>, h: Held, field: string) {
    Looked(h) && forall v :: HeldGroup(groups, h, field, v)
  }

  lemma HeldGroupGathers<T>(groups: map<Value, seq<Record>>, h: Held, field: string, v: Value, g: Record -> multiset<T>)
    requires HeldGroups(groups, h, field)
    ensures Gather(GroupOf(groups, v), g) == Sum(KeysWith(h.read, field, v), Then(Row(h.rows), g))
  {
    assert HeldGroup(groups, h, field, v);
    if v in groups {
      GatherIsSum(groups[v], KeysWith(h.read, field, v), Row(h.rows), g);
    }
  }

  lemma GroupingKeys(h: Held, field: string, v: Value)
    requires Looked(h)
    ensures KeysWith(Grouping(h, field), field, v) == KeysWith(h.read, field, v)
  {
  }

  lemma OtherFieldsStay(row: Record, read: Record, field: string, other: string)
    requires field != other
    ensures StringField(Regrouped(row, read, field), other) == StringField(row, other)
  {
  }

  lemma PiisHeld(groups: map<Value, seq<Record>>, piis: Held, id: string)
    requires HeldGroups(groups, piis, "component_id")
    ensures Gather(GroupOf(groups, Str(id)), PiiKind()) == PiisOf(Grouping(piis, "component_id"), id)
  {
    var rows, keys := Grouping(piis, "component_id"), KeysWith(piis.read, "component_id", Str(id));
    HeldGroupGathers(groups, piis, "component_id", Str(id), PiiKind());
    GroupingKeys(piis, "component_id", Str(id));
    forall k | k in keys
      ensures Then(Row(piis.rows), PiiKind())(k) == Then(Row(rows), PiiKind())(k)
    {
      OtherFieldsStay(piis.rows[k], piis.read[k], "component_id", "pii_type");
    }
    SumAgrees(keys, Then(Row(piis.rows), PiiKind()), Then(Row(rows), PiiKind()));
  }

  lemma ComponentHeld(groups: map<Value, seq<Record>>, piis: Held, row: Record, read: Record)
    requires HeldGroups(groups, piis, "component_id")
    ensures ComponentFrom(groups)(row) == ComponentAt(Grouping(piis, "component_id"))(Regrouped(row, read, "app_item_name"))
  {
    OtherFieldsStay(row, read, "app_item_name", "component_type");
    OtherFieldsStay(row, read, "app_item_name", "value");
    OtherFieldsStay(row, read, "app_item_name", "id");
    PiisHeld(groups, piis, StringField(row, "id"));
  }

  lemma ComponentsHeld(compGroups: map<Value, seq<Record>>, piiGroups: map<Value, seq<Record>>, comps: Held, piis: Held,
      name: string)
    requires HeldGroups(compGroups, comps, "app_item_name") && HeldGroups(piiGroups, piis, "component_id")
    ensures Gather(GroupOf(compGroups, Str(name)), One(ComponentFrom(piiGroups)))
         == ComponentsOf(Grouping(comps, "app_item_name"), Grouping(piis, "component_id"), name)
  {
    var rows, keys := Grouping(comps, "app_item_name"), KeysWith(comps.read, "app_item_name", Str(name));
    var f := Then(Row(comps.rows), One(ComponentFrom(piiGroups)));
    var g := Each(Bags.After(ComponentAt(Grouping(piis, "component_id")), Row(rows)));
    HeldGroupGathers(compGroups, comps, "app_item_name", Str(name), One(ComponentFrom(piiGroups)));
    GroupingKeys(comps, "app_item_name", Str(name));
    forall k | k in keys
      ensures f(k) == g(k)
    {
      ComponentHeld(piiGroups, piis, comps.rows[k], comps.read[k]);
    }
    SumAgrees(keys, f, g);
  }

  lemma ItemHeld(rec: Record, compGroups: map<Value, seq<Record>>, piiGroups: map<Value, seq<Record>>,
      comps: Held, piis: Held, n: string)
    requires HeldGroups(compGroups, comps, "app_item_name") && HeldGroups(piiGroups, piis, "component_id")
    requires StringField(rec, "name") == n
    ensures ItemFrom(rec, compGroups, piiGroups)
         == ItemView(n, StringField(rec, "type"),
              ComponentsOf(Grouping(comps, "app_item_name"), Grouping(piis, "component_id"), n))
  {
    ComponentsHeld(compGroups, piiGroups, comps, piis, n);
  }

  /**
   * The catalog that the loops build from references, whenever each row is looked at, is the one
   * that a request of the interleaved system publishes.
   */
  lemma HeldCatalogRead(recs: seq<Record>, compGroups: map<Value, seq<Record>>, piiGroups: map<Value, seq<Record>>,
      items: Held, comps: Held, piis: Held)
    requires Api.Reads(recs, items.rows) && AllRows(IsItem, items.rows)
    requires HeldGroups(compGroups, comps, "app_item_name") && HeldGroups(piiGroups, piis, "component_id")
    ensures CatalogFrom(recs, compGroups, piiGroups)
         == CatalogOf(items.rows, Grouping(comps, "app_item_name"), Grouping(piis, "component_id"))
  {
    var built := CatalogFrom(recs, compGroups, piiGroups);
    var c, q := Grouping(comps, "app_item_name"), Grouping(piis, "component_id");
    forall n
      ensures ShowsItem(built, items.rows, c, q, n)
    {
      NameRead(recs, compGroups, piiGroups, items.rows, n);
      if n in items.rows {
        ItemHeld(items.rows[n], compGroups, piiGroups, comps, piis, n);
      }
    }
    ShowsAllItems(built, items.rows, c, q);
  }
}
