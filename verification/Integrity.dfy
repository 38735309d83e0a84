/** The references between the four tables, and how writes keep them. */
module Integrity {
  import opened Values
  import opened Combining
  import opened UniqueMerge
  import opened Spans
  import opened Accumulation

  /** The component belongs to one of the app items. */
  ghost function HasOwner(items: set<string>): (string, Record) -> bool {
    (k, r) => StringField(r, "app_item_name") in items
  }

  /** The finding belongs to one of the components. */
  ghost function HasComponent(comps: set<string>): (string, Record) -> bool {
    (k, r) => StringField(r, "component_id") in comps
  }

  ghost predicate AllIn(ids: seq<string>, comps: set<string>) {
    forall i :: 0 <= i < |ids| ==> ids[i] in comps
  }

  /** Both ends are app items and every listed component exists. */
  ghost function HasEnds(items: set<string>, comps: set<string>): (string, Record) -> bool {
    (k, r) => StringField(r, "source") in items && StringField(r, "destination") in items && AllIn(Ids(r), comps)
  }

  ghost predicate Owned(items: Rows, comps: Rows) {
    AllRows(HasOwner(items.Keys), comps)
  }

  ghost predicate Attached(comps: Rows, piis: Rows) {
    AllRows(HasComponent(comps.Keys), piis)
  }

  ghost predicate Linked(items: Rows, comps: Rows, conns: Rows) {
    AllRows(HasEnds(items.Keys, comps.Keys), conns)
  }

  ghost predicate Closed(t: Tables) {
    Owned(t.items, t.comps) && Attached(t.comps, t.piis) && Linked(t.items, t.comps, t.conns)
  }

  // ----- more keys never break a reference -----

  lemma OwnedGrows(items: Rows, more: Rows, comps: Rows)
    requires Owned(items, comps) && items.Keys <= more.Keys
    ensures Owned(more, comps)
  {
    forall k | k in comps
      ensures HasOwner(more.Keys)(k, comps[k])
    {
      assert HasOwner(items.Keys)(k, comps[k]);
    }
  }

  lemma AttachedGrows(comps: Rows, more: Rows, piis: Rows)
    requires Attached(comps, piis) && comps.Keys <= more.Keys
    ensures Attached(more, piis)
  {
    forall k | k in piis
      ensures HasComponent(more.Keys)(k, piis[k])
    {
      assert HasComponent(comps.Keys)(k, piis[k]);
    }
  }

  lemma LinkedGrows(items: Rows, items': Rows, comps: Rows, comps': Rows, conns: Rows)
    requires Linked(items, comps, conns) && items.Keys <= items'.Keys && comps.Keys <= comps'.Keys
    ensures Linked(items', comps', conns)
  {
    forall k | k in conns
      ensures HasEnds(items'.Keys, comps'.Keys)(k, conns[k])
    {
      assert HasEnds(items.Keys, comps.Keys)(k, conns[k]);
    }
  }

  // ----- writing rows with good references keeps references good -----

  lemma OwnedCombines(items: Rows, t: Rows, a: Rows)
    requires Owned(items, t) && Owned(items, a)
    ensures Owned(items, Combine(TakeFields, t, a))
  {
    CombineKeeps(TakeFields, HasOwner(items.Keys), t, a);
  }

  lemma AttachedCombines(comps: Rows, t: Rows, a: Rows)
    requires Attached(comps, t) && Attached(comps, a)
    ensures Attached(comps, Combine(StayFirst, t, a))
  {
    CombineKeeps(StayFirst, HasComponent(comps.Keys), t, a);
  }

  lemma JoinKeepsEnds(items: set<string>, comps: set<string>, k: string, p: Record, q: Record)
    requires HasEnds(items, comps)(k, p) && HasEnds(items, comps)(k, q)
    ensures HasEnds(items, comps)(k, JoinIds(p, q))
  {
    var ids := MergeLists(Ids(p), Ids(q));
    forall i | 0 <= i < |ids|
      ensures ids[i] in comps
    {
      MergeHas(Ids(p), Ids(q), ids[i]);
      assert ids[i] in ids;
    }
  }

  lemma LinkedCombines(items: Rows, comps: Rows, t: Rows, a: Rows)
    requires Linked(items, comps, t) && Linked(items, comps, a)
    ensures Linked(items, comps, Combine(JoinIds, t, a))
  {
    var P := HasEnds(items.Keys, comps.Keys);
    forall k, p: Record, q: Record | P(k, p) && P(k, q)
      ensures P(k, JoinIds(p, q))
    {
      JoinKeepsEnds(items.Keys, comps.Keys, k, p, q);
    }
    CombineKeeps(JoinIds, P, t, a);
  }

  lemma ApplyClosed(t: Tables, a: Tables)
    requires Closed(t) && Closed(a)
    ensures Closed(Apply(t, a))
  {
    var c := Apply(t, a);
    OwnedGrows(t.items, c.items, t.comps);
    OwnedGrows(a.items, c.items, a.comps);
    OwnedCombines(c.items, t.comps, a.comps);
    AttachedGrows(t.comps, c.comps, t.piis);
    AttachedGrows(a.comps, c.comps, a.piis);
    AttachedCombines(c.comps, t.piis, a.piis);
    LinkedGrows(t.items, c.items, t.comps, c.comps, t.conns);
    LinkedGrows(a.items, c.items, a.comps, c.comps, a.conns);
    LinkedCombines(c.items, c.comps, t.conns, a.conns);
  }

  lemma PiiRowsAttached(comp: string, kinds: set<string>)
    ensures AllRows(HasComponent({comp}), PiiRows(comp, kinds))
  {
  }

  lemma ComponentRowOwned(cfg: Config, s: Span)
    ensures AllRows(HasOwner({Source(s), Destination(s)}), map[ComponentId(cfg, s) := ComponentRow(cfg, s)])
  {
    assert StringField(ComponentRow(cfg, s), "app_item_name") == Destination(s);
  }

  lemma ConnectionRowLinked(s: Span, comp: string)
    ensures AllRows(HasEnds({Source(s), Destination(s)}, {comp}), map[ConnectionId(s) := ConnectionRow(s, [comp])])
  {
    var row := ConnectionRow(s, [comp]);
    assert Ids(row) == [comp];
    assert StringField(row, "source") == Source(s) && StringField(row, "destination") == Destination(s);
    assert HasEnds({Source(s), Destination(s)}, {comp})(ConnectionId(s), row);
  }

  lemma DeltaClosed(cfg: Config, s: Span)
    ensures Closed(Delta(cfg, s))
  {
    var d, comp := Delta(cfg, s), ComponentId(cfg, s);
    assert d.items.Keys == {Source(s), Destination(s)} && d.comps.Keys == {comp};
    ComponentRowOwned(cfg, s);
    PiiRowsAttached(comp, Kinds(cfg, s));
    ConnectionRowLinked(s, comp);
  }

  ghost predicate AllClosed(delta: Span -> Tables) {
    forall s :: Closed(delta(s))
  }

  lemma DeltasClosed(cfg: Config)
    ensures AllClosed(DeltaOf(cfg))
  {
    forall s
      ensures Closed(DeltaOf(cfg)(s))
    {
      DeltaClosed(cfg, s);
    }
  }

  /** An accumulator refers only to rows that it holds itself. */
  lemma {:induction false} AccumulatedClosed(delta: Span -> Tables, spans: seq<Span>)
    requires AllClosed(delta)
    ensures Closed(Accumulated(delta, spans))
  {
    if spans != [] {
      AccumulatedClosed(delta, spans[..|spans| - 1]);
      ApplyClosed(Accumulated(delta, spans[..|spans| - 1]), delta(spans[|spans| - 1]));
    }
  }
}
