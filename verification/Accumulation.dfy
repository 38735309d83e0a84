/** The algebra of accumulated writes: what a flush does, and why its schedule cannot be observed. */
module Accumulation {
  import opened Values
  import opened Combining
  import opened UniqueMerge
  import opened Spans

  type Rows = map<string, Record>

  /** Four maps of rows: the contents of the four tables, or what an accumulator holds for them. */
  datatype Tables = Tables(items: Rows, comps: Rows, piis: Rows, conns: Rows)

  function Empty(): Tables {
    Tables(map[], map[], map[], map[])
  }

  // ----- flushing one accumulator -----

  /** Upsert: an existing row takes the new fields. */
  function TakeFields(prev: Record, row: Record): Record {
    prev + row
  }

  /** Insert or do nothing: the row that came first stays. */
  function StayFirst(prev: Record, row: Record): Record {
    prev
  }

  function Ids(row: Record): seq<string> {
    AsList(Lookup(row, "component_ids"))
  }

  /** Insert or merge: an existing connection only gains component ids. */
  function JoinIds(prev: Record, row: Record): Record {
    prev["component_ids" := StrList(MergeLists(Ids(prev), Ids(row)))]
  }

  function Apply(t: Tables, a: Tables): Tables {
    Tables(Combine(TakeFields, t.items, a.items),
           Combine(TakeFields, t.comps, a.comps),
           Combine(StayFirst, t.piis, a.piis),
           Combine(JoinIds, t.conns, a.conns))
  }

  // ----- what spans contribute -----

  ghost function PiiRows(comp: string, kinds: set<string>): Rows {
    var ids := set k | k in kinds :: PiiId(comp, k);
    map id | id in ids :: PiiRow(comp, KindIn(comp, id))
  }

  function KindIn(comp: string, id: string): string {
    if |comp| < |id| then id[|comp| + 1..] else ""
  }

  ghost function Delta(cfg: Config, s: Span): Tables {
    Tables(
      map[Source(s) := ItemRow(Source(s), SourceType(Source(s)))]
         [Destination(s) := ItemRow(Destination(s), HandlerFor(cfg, s).destinationType)],
      map[ComponentId(cfg, s) := ComponentRow(cfg, s)],
      PiiRows(ComponentId(cfg, s), Kinds(cfg, s)),
      map[ConnectionId(s) := ConnectionRow(s, [ComponentId(cfg, s)])])
  }

  ghost function DeltaOf(cfg: Config): Span -> Tables {
    s => Delta(cfg, s)
  }

  /** What an accumulator holds after the given spans, starting empty, if span s contributes delta(s). */
  ghost function Accumulated(delta: Span -> Tables, spans: seq<Span>): Tables {
    if spans == [] then Empty()
    else Apply(Accumulated(delta, spans[..|spans| - 1]), delta(spans[|spans| - 1]))
  }

  ghost function AccumulatedBy(cfg: Config): seq<Span> -> Tables {
    spans => Accumulated(DeltaOf(cfg), spans)
  }

  // ----- the algebra -----

  lemma RulesAssociative()
    ensures Associative(TakeFields) && Associative(StayFirst) && Associative(JoinIds)
  {
    forall p: Record, q: Record, r: Record
      ensures JoinIds(p, JoinIds(q, r)) == JoinIds(JoinIds(p, q), r)
    {
      MergeAssociative(Ids(p), Ids(q), Ids(r));
    }
    forall p: Record, q: Record, r: Record
      ensures TakeFields(p, TakeFields(q, r)) == TakeFields(TakeFields(p, q), r)
    {
    }
  }

  /** Flushing two accumulators in turn is flushing their combination, whatever the tables hold. */
  lemma ApplyAssociative(t: Tables, a: Tables, b: Tables)
    ensures Apply(t, Apply(a, b)) == Apply(Apply(t, a), b)
  {
    RulesAssociative();
    CombineAssociative(TakeFields, t.items, a.items, b.items);
    CombineAssociative(TakeFields, t.comps, a.comps, b.comps);
    CombineAssociative(StayFirst, t.piis, a.piis, b.piis);
    CombineAssociative(JoinIds, t.conns, a.conns, b.conns);
  }

  lemma ApplyIdentity(t: Tables)
    ensures Apply(t, Empty()) == t && Apply(Empty(), t) == t
  {
    CombineIdentity(TakeFields, t.items);
    CombineIdentity(TakeFields, t.comps);
    CombineIdentity(StayFirst, t.piis);
    CombineIdentity(JoinIds, t.conns);
  }

  lemma {:induction false} AccumulatedConcat(delta: Span -> Tables, xs: seq<Span>, ys: seq<Span>)
    ensures Accumulated(delta, xs + ys) == Apply(Accumulated(delta, xs), Accumulated(delta, ys))
  {
    if ys == [] {
      ConcatNothing(xs, ys);
      ApplyIdentity(Accumulated(delta, xs));
    } else {
      var front, y := ys[..|ys| - 1], ys[|ys| - 1];
      FrontOfConcat(xs, ys);
      AccumulatedConcat(delta, xs, front);
      ApplyAssociative(Accumulated(delta, xs), Accumulated(delta, front), delta(y));
    }
  }

  // ----- schedules -----

  function Concat<T>(chunks: seq<seq<T>>): seq<T> {
    if chunks == [] then [] else Concat(chunks[..|chunks| - 1]) + chunks[|chunks| - 1]
  }

  /** Accumulates and flushes each chunk of spans in turn. */
  ghost function FlushEach(delta: Span -> Tables, t: Tables, chunks: seq<seq<Span>>): Tables {
    if chunks == [] then t
    else Apply(FlushEach(delta, t, chunks[..|chunks| - 1]), Accumulated(delta, chunks[|chunks| - 1]))
  }

  /** However the spans are cut into flushes, the tables end up as after one flush of everything. */
  lemma {:induction false} ScheduleUnobservable(delta: Span -> Tables, t: Tables, chunks: seq<seq<Span>>)
    ensures FlushEach(delta, t, chunks) == Apply(t, Accumulated(delta, Concat(chunks)))
  {
    if chunks == [] {
      ApplyIdentity(t);
    } else {
      var front, last := chunks[..|chunks| - 1], chunks[|chunks| - 1];
      ScheduleUnobservable(delta, t, front);
      AccumulatedConcat(delta, Concat(front), last);
      ApplyAssociative(t, Accumulated(delta, Concat(front)), Accumulated(delta, last));
    }
  }

  /** The reference without any accumulator: every span is written on its own. */
  ghost function WriteEach(delta: Span -> Tables, t: Tables, spans: seq<Span>): Tables {
    if spans == [] then t
    else Apply(WriteEach(delta, t, spans[..|spans| - 1]), delta(spans[|spans| - 1]))
  }

  lemma {:induction false} SpanBySpan(delta: Span -> Tables, t: Tables, spans: seq<Span>)
    ensures WriteEach(delta, t, spans) == Apply(t, Accumulated(delta, spans))
  {
    if spans == [] {
      ApplyIdentity(t);
    } else {
      var front, s := spans[..|spans| - 1], spans[|spans| - 1];
      SpanBySpan(delta, t, front);
      ApplyAssociative(t, Accumulated(delta, front), delta(s));
    }
  }

  // ----- well-formed rows -----

  ghost predicate IsItem(k: string, r: Record) {
    r.Keys == {"name", "type"} && r["name"] == Str(k) && r["type"].Str?
  }

  ghost predicate IsComponent(k: string, r: Record) {
    && r.Keys == {"id", "app_item_name", "component_type", "value"}
    && r["id"] == Str(k) && r["app_item_name"].Str? && r["component_type"].Str? && r["value"].Str?
  }

  ghost predicate IsPii(k: string, r: Record) {
    r.Keys == {"id", "component_id", "pii_type"} && r["id"] == Str(k) && r["component_id"].Str? && r["pii_type"].Str?
  }

  ghost predicate IsConnection(k: string, r: Record) {
    && r.Keys == {"id", "source", "destination", "component_ids"}
    && r["id"] == Str(k) && r["source"].Str? && r["destination"].Str?
    && r["component_ids"].StrList? && NoDuplicates(Ids(r))
  }

  /** Every row has exactly its table's fields, under its own key; no component list repeats an id. */
  ghost predicate WellFormed(t: Tables) {
    && AllRows(IsItem, t.items)
    && AllRows(IsComponent, t.comps)
    && AllRows(IsPii, t.piis)
    && AllRows(IsConnection, t.conns)
  }

  lemma JoinKeepsConnection(k: string, p: Record, q: Record)
    requires IsConnection(k, p) && IsConnection(k, q)
    ensures IsConnection(k, JoinIds(p, q))
  {
    MergeUniqueIff(Ids(p), Ids(q));
    assert NoDuplicates(MergeLists(Ids(p), Ids(q)));
  }

  lemma ApplyWellFormed(t: Tables, a: Tables)
    requires WellFormed(t) && WellFormed(a)
    ensures WellFormed(Apply(t, a))
  {
    CombineKeeps(TakeFields, IsItem, t.items, a.items);
    CombineKeeps(TakeFields, IsComponent, t.comps, a.comps);
    CombineKeeps(StayFirst, IsPii, t.piis, a.piis);
    forall k, p: Record, q: Record | IsConnection(k, p) && IsConnection(k, q)
      ensures IsConnection(k, JoinIds(p, q))
    {
      JoinKeepsConnection(k, p, q);
    }
    CombineKeeps(JoinIds, IsConnection, t.conns, a.conns);
  }

  lemma KindRoundTrip(comp: string, kind: string)
    ensures KindIn(comp, PiiId(comp, kind)) == kind
  {
  }

  lemma PiiRowsWellFormed(comp: string, kinds: set<string>)
    ensures AllRows(IsPii, PiiRows(comp, kinds))
    ensures forall id :: id in PiiRows(comp, kinds) <==> exists k :: k in kinds && id == PiiId(comp, k)
  {
    forall id | id in PiiRows(comp, kinds)
      ensures IsPii(id, PiiRows(comp, kinds)[id])
    {
      var k :| k in kinds && PiiId(comp, k) == id;
      KindRoundTrip(comp, k);
    }
  }

  lemma ItemsWellFormed(source: string, sourceType: string, destination: string, destinationType: string)
    ensures AllRows(IsItem, map[source := ItemRow(source, sourceType)][destination := ItemRow(destination, destinationType)])
  {
  }

  lemma ComponentRowWellFormed(cfg: Config, s: Span)
    ensures AllRows(IsComponent, map[ComponentId(cfg, s) := ComponentRow(cfg, s)])
  {
    assert IsComponent(ComponentId(cfg, s), ComponentRow(cfg, s));
  }

  lemma ConnectionRowWellFormed(s: Span, comp: string)
    ensures AllRows(IsConnection, map[ConnectionId(s) := ConnectionRow(s, [comp])])
  {
    assert Ids(ConnectionRow(s, [comp])) == [comp];
    assert IsConnection(ConnectionId(s), ConnectionRow(s, [comp]));
  }

  lemma DeltaWellFormed(cfg: Config, s: Span)
    ensures WellFormed(Delta(cfg, s))
  {
    ItemsWellFormed(Source(s), SourceType(Source(s)), Destination(s), HandlerFor(cfg, s).destinationType);
    PiiRowsWellFormed(ComponentId(cfg, s), Kinds(cfg, s));
    ComponentRowWellFormed(cfg, s);
    ConnectionRowWellFormed(s, ComponentId(cfg, s));
  }

  ghost predicate AllWellFormed(delta: Span -> Tables) {
    forall s :: WellFormed(delta(s))
  }

  lemma DeltasWellFormed(cfg: Config)
    ensures AllWellFormed(DeltaOf(cfg))
  {
    forall s
      ensures WellFormed(DeltaOf(cfg)(s))
    {
      DeltaWellFormed(cfg, s);
    }
  }

  lemma {:induction false} AccumulatedWellFormed(delta: Span -> Tables, spans: seq<Span>)
    requires AllWellFormed(delta)
    ensures WellFormed(Accumulated(delta, spans))
  {
    if spans != [] {
      AccumulatedWellFormed(delta, spans[..|spans| - 1]);
      ApplyWellFormed(Accumulated(delta, spans[..|spans| - 1]), delta(spans[|spans| - 1]));
    }
  }

  lemma CombinesWithItself(a: Tables)
    requires WellFormed(a)
    ensures Apply(a, a) == a
  {
    assert forall r: Record :: TakeFields(r, r) == r;
    CombineIdempotent(TakeFields, a.items);
    CombineIdempotent(TakeFields, a.comps);
    CombineIdempotent(StayFirst, a.piis);
    forall k | k in a.conns
      ensures JoinIds(a.conns[k], a.conns[k]) == a.conns[k]
    {
      assert IsConnection(k, a.conns[k]);
      MergeAbsorbs(Ids(a.conns[k]), Ids(a.conns[k]));
    }
    CombineIdempotent(JoinIds, a.conns);
  }

  /** Flushing the same well-formed accumulator twice is flushing it once. */
  lemma ApplyIdempotent(t: Tables, a: Tables)
    requires WellFormed(a)
    ensures Apply(Apply(t, a), a) == Apply(t, a)
  {
    CombinesWithItself(a);
    ApplyAssociative(t, a, a);
  }

  /** Processing xs then ys is processing xs + ys; processing xs twice is processing it once. */
  lemma RunsCompose(delta: Span -> Tables, t: Tables, xs: seq<Span>, ys: seq<Span>)
    ensures Apply(Apply(t, Accumulated(delta, xs)), Accumulated(delta, ys)) == Apply(t, Accumulated(delta, xs + ys))
    ensures AllWellFormed(delta) ==>
      Apply(Apply(t, Accumulated(delta, xs)), Accumulated(delta, xs)) == Apply(t, Accumulated(delta, xs))
  {
    AccumulatedConcat(delta, xs, ys);
    ApplyAssociative(t, Accumulated(delta, xs), Accumulated(delta, ys));
    if AllWellFormed(delta) {
      AccumulatedWellFormed(delta, xs);
      ApplyIdempotent(t, Accumulated(delta, xs));
    }
  }
}
