/** What a flush does to the four tables: two waves of two writes each. */
module Flushing {
  import opened Values
  import opened TableSpec
  import opened Database
  import opened Combining
  import opened Accumulation
  import opened TableWrites
  import opened Integrity

  // ----- the four tables -----

  datatype Schema = Schema(pk: string, indexed: set<string>)

  function ItemsSchema(): Schema { Schema("name", {"type"}) }

  function ComponentsSchema(): Schema { Schema("id", {"app_item_name", "component_type"}) }

  function PiisSchema(): Schema { Schema("id", {"component_id", "pii_type"}) }

  function ConnectionsSchema(): Schema { Schema("id", {"source", "destination"}) }

  function SchemaOf(st: TableState): Schema {
    Schema(st.pk, st.indexes.Keys)
  }

  /** What is in the database under the four names. */
  datatype View = View(
    items: Option<TableState>, comps: Option<TableState>, piis: Option<TableState>, conns: Option<TableState>)

  ghost function Peek(db: DB, name: string): Option<TableState>
    reads db, db.tables.Values
  {
    if name in db.tables then Some(db.At(name)) else None
  }

  ghost function ViewOf(db: DB): View
    reads db, db.tables.Values
  {
    View(Peek(db, "app_items"), Peek(db, "components"), Peek(db, "component_piis"), Peek(db, "connections"))
  }

  ghost predicate HasShape(t: Option<TableState>, schema: Schema) {
    t.Some? ==> SchemaOf(t.value) == schema
  }

  /** Whichever of the four tables exist have the schema that CreateSchema gives them. */
  ghost predicate SchemaOk(v: View) {
    && HasShape(v.items, ItemsSchema())
    && HasShape(v.comps, ComponentsSchema())
    && HasShape(v.piis, PiisSchema())
    && HasShape(v.conns, ConnectionsSchema())
  }

  function RowsOf(t: Option<TableState>): Rows {
    if t.Some? then t.value.records else map[]
  }

  /** The rows of the four tables; a missing table has none. */
  function Snapshot(v: View): Tables {
    Tables(RowsOf(v.items), RowsOf(v.comps), RowsOf(v.piis), RowsOf(v.conns))
  }

  ghost predicate HealthyTable(t: Option<TableState>) {
    t.Some? ==> Healthy(t.value)
  }

  ghost predicate AllHealthy(v: View) {
    HealthyTable(v.items) && HealthyTable(v.comps) && HealthyTable(v.piis) && HealthyTable(v.conns)
  }

  /** Every kind of row that is there has a table to go to. */
  predicate Writable(v: View, a: Tables) {
    && (a.items != map[] ==> v.items.Some?)
    && (a.comps != map[] ==> v.comps.Some?)
    && (a.piis != map[] ==> v.piis.Some?)
    && (a.conns != map[] ==> v.conns.Some?)
  }

  datatype Presence = Presence(items: bool, comps: bool, piis: bool, conns: bool)

  /** Which of the four tables there are. */
  function Present(v: View): Presence {
    Presence(v.items.Some?, v.comps.Some?, v.piis.Some?, v.conns.Some?)
  }

  lemma WritableSplits(v: View, a: Tables, b: Tables)
    ensures Writable(v, Apply(a, b)) <==> Writable(v, a) && Writable(v, b)
  {
    CombineEmpty(TakeFields, a.items, b.items);
    CombineEmpty(TakeFields, a.comps, b.comps);
    CombineEmpty(StayFirst, a.piis, b.piis);
    CombineEmpty(JoinIds, a.conns, b.conns);
  }

  lemma CombineEmpty(f: (Record, Record) -> Record, t: Rows, a: Rows)
    ensures Combine(f, t, a) == map[] <==> t == map[] && a == map[]
  {
    if k :| k in t { assert k in Combine(f, t, a); }
    if k :| k in a { assert k in Combine(f, t, a); }
  }

  /** Writing these rows in this mode, into a table of this schema, combines them with f. */
  ghost predicate Suits(schema: Schema, mode: Mode, f: (Record, Record) -> Record, rows: Rows) {
    && (mode.OnConflict? ==> !mode.opts.action.ConflictError?)
    && KeyedRows(schema.pk, rows)
    && forall k :: k in rows ==> Follows(mode, f, schema.pk, rows[k]) && schema.indexed <= rows[k].Keys
  }

  lemma ItemsSuit(rows: Rows)
    requires AllRows(IsItem, rows)
    ensures Suits(ItemsSchema(), Upserting, TakeFields, rows)
  {
    forall k | k in rows
      ensures Follows(Upserting, TakeFields, "name", rows[k])
    {
      UpsertFollows("name", rows[k]);
    }
  }

  lemma ComponentsSuit(rows: Rows)
    requires AllRows(IsComponent, rows)
    ensures Suits(ComponentsSchema(), Upserting, TakeFields, rows)
  {
    forall k | k in rows
      ensures Follows(Upserting, TakeFields, "id", rows[k])
    {
      UpsertFollows("id", rows[k]);
    }
  }

  lemma PiisSuit(rows: Rows)
    requires AllRows(IsPii, rows)
    ensures Suits(PiisSchema(), OnConflict(DoNothing()), StayFirst, rows)
  {
    forall k | k in rows
      ensures Follows(OnConflict(DoNothing()), StayFirst, "id", rows[k])
    {
      DoNothingFollows("id", rows[k]);
    }
  }

  lemma ConnectionsSuit(rows: Rows)
    requires AllRows(IsConnection, rows)
    ensures Suits(ConnectionsSchema(), OnConflict(MergeComponentIds()), JoinIds, rows)
  {
    forall k | k in rows
      ensures Follows(OnConflict(MergeComponentIds()), JoinIds, "id", rows[k])
    {
      MergeFollows("id", rows[k]);
    }
  }

  ghost predicate WrittenState(schema: Schema, f: (Record, Record) -> Record, rows: Rows,
      before: TableState, after: TableState)
  {
    && after.records == Combine(f, before.records, rows)
    && SchemaOf(after) == schema
    && (!Healthy(before) || Healthy(after))
  }

  /** A table before and after one of the writes of a flush. */
  ghost predicate Written(schema: Schema, f: (Record, Record) -> Record, rows: Rows,
      before: Option<TableState>, after: Option<TableState>) {
    before.Some? == after.Some? && (before.Some? ==> WrittenState(schema, f, rows, before.value, after.value))
  }

  /** The batch operation succeeds and leads to the state out. */
  ghost predicate Leads(mode: Mode, recs: seq<Record>, st: TableState, out: TableState) {
    Perform(BatchOp(mode, recs), st) == Outcome(out, Ok)
  }

  lemma BatchPerforms(mode: Mode, recs: seq<Record>, st: TableState)
    ensures Perform(BatchOp(mode, recs), st) == WriteBatch(mode, st, recs)
  {
  }

  lemma SuitedWrite(schema: Schema, mode: Mode, f: (Record, Record) -> Record, rows: Rows,
      recs: seq<Record>, keys: seq<string>, st: TableState)
    requires Suits(schema, mode, f, rows) && Lists(recs, keys, rows) && SchemaOf(st) == schema
    ensures var out := WriteBatch(mode, st, recs);
      && out.status == Ok && out.state.pk == st.pk && out.state.indexes.Keys == st.indexes.Keys
      && out.state.records == Combine(f, st.records, rows)
      && (Healthy(st) ==> Healthy(out.state))
  {
    assert st.pk == schema.pk && st.indexes.Keys == schema.indexed;
    FlushWrite(mode, f, st, recs, keys, rows);
  }

  lemma StateIsWritten(schema: Schema, f: (Record, Record) -> Record, rows: Rows, st: TableState, out: TableState)
    requires SchemaOf(st) == schema && out.pk == st.pk && out.indexes.Keys == st.indexes.Keys
    requires out.records == Combine(f, st.records, rows) && (Healthy(st) ==> Healthy(out))
    ensures WrittenState(schema, f, rows, st, out)
  {
  }

  lemma WritesRows(schema: Schema, mode: Mode, f: (Record, Record) -> Record, rows: Rows,
      recs: seq<Record>, keys: seq<string>, st: TableState) returns (out: TableState)
    requires Suits(schema, mode, f, rows) && Lists(recs, keys, rows) && SchemaOf(st) == schema
    ensures Leads(mode, recs, st, out) && WrittenState(schema, f, rows, st, out)
  {
    SuitedWrite(schema, mode, f, rows, recs, keys, st);
    BatchPerforms(mode, recs, st);
    out := WriteBatch(mode, st, recs).state;
    StateIsWritten(schema, f, rows, st, out);
  }

  /** The outcome of a write, known before it runs, whether or not the table is there. */
  lemma WritesTable(schema: Schema, mode: Mode, f: (Record, Record) -> Record, rows: Rows,
      recs: seq<Record>, keys: seq<string>, t: Option<TableState>) returns (out: Option<TableState>)
    requires Suits(schema, mode, f, rows) && Lists(recs, keys, rows) && HasShape(t, schema)
    ensures LeadsTable(mode, recs, t, out) && Written(schema, f, rows, t, out)
  {
    if t.Some? {
      var st := WritesRows(schema, mode, f, rows, recs, keys, t.value);
      out := Some(st);
    } else {
      out := None;
    }
  }

  ghost predicate LeadsTable(mode: Mode, recs: seq<Record>, t: Option<TableState>, out: Option<TableState>) {
    t.Some? == out.Some? && (t.Some? ==> Leads(mode, recs, t.value, out.value))
  }

  lemma WritesNothing(schema: Schema, f: (Record, Record) -> Record, t: Option<TableState>)
    requires HasShape(t, schema)
    ensures Written(schema, f, map[], t, t)
  {
    if t.Some? { CombineIdentity(f, t.value.records); }
  }

  lemma ListsSome(recs: seq<Record>, keys: seq<string>, rows: Rows)
    requires Lists(recs, keys, rows) && rows != map[]
    ensures recs != []
  {
    var k :| k in rows;
    assert k in keys;
  }

  lemma WrittenRows(schema: Schema, f: (Record, Record) -> Record, rows: Rows,
      before: Option<TableState>, after: Option<TableState>)
    requires Written(schema, f, rows, before, after) && (rows == map[] || before.Some?)
    ensures RowsOf(after) == Combine(f, RowsOf(before), rows)
  {
    CombineIdentity(f, RowsOf(before));
  }

  ghost predicate FirstWave(v: View, w: View, a: Tables, ok: bool) {
    && (ok <==> (a.items == map[] || v.items.Some?) && (a.comps == map[] || v.comps.Some?))
    && Written(ItemsSchema(), TakeFields, a.items, v.items, w.items)
    && Written(ComponentsSchema(), TakeFields, a.comps, v.comps, w.comps)
    && w.piis == v.piis && w.conns == v.conns
  }

  ghost predicate SecondWave(v: View, w: View, a: Tables, ok: bool) {
    && (ok <==> (a.piis == map[] || v.piis.Some?) && (a.conns == map[] || v.conns.Some?))
    && Written(PiisSchema(), StayFirst, a.piis, v.piis, w.piis)
    && Written(ConnectionsSchema(), JoinIds, a.conns, v.conns, w.conns)
    && w.items == v.items && w.comps == v.comps
  }

  /** What a flush promises about the view before and after it. */
  ghost predicate Flushed(v: View, w: View, a: Tables, ok: bool) {
    && SchemaOk(w) && Present(v) == Present(w)
    && ok == Writable(v, a)
    && (ok ==> Snapshot(w) == Apply(Snapshot(v), a))
    && (!AllHealthy(v) || AllHealthy(w))
    && (!Referenced(Snapshot(v)) || Referenced(Snapshot(w)))
  }

  /** The references that hold even after a flush that failed half-way. */
  ghost predicate Referenced(t: Tables) {
    Attached(t.comps, t.piis) && Linked(t.items, t.comps, t.conns)
  }

  /** Exactly what a flush does: the second wave runs only if both writes of the first one succeed. */
  ghost predicate TwoWaves(v: View, w: View, a: Tables, ok: bool) {
    || (!ok && FirstWave(v, w, a, false))
    || exists u :: FirstWave(v, u, a, true) && SecondWave(u, w, a, ok)
  }

  lemma FirstWaveSkipped(v: View, a: Tables)
    requires SchemaOk(v) && a.items == map[] && a.comps == map[]
    ensures FirstWave(v, v, a, true)
  {
    WritesNothing(ItemsSchema(), TakeFields, v.items);
    WritesNothing(ComponentsSchema(), TakeFields, v.comps);
  }

  lemma SecondWaveSkipped(v: View, a: Tables)
    requires SchemaOk(v) && a.piis == map[] && a.conns == map[]
    ensures SecondWave(v, v, a, true)
  {
    WritesNothing(PiisSchema(), StayFirst, v.piis);
    WritesNothing(ConnectionsSchema(), JoinIds, v.conns);
  }

  lemma WrittenKeys(schema: Schema, f: (Record, Record) -> Record, rows: Rows,
      before: Option<TableState>, after: Option<TableState>)
    requires Written(schema, f, rows, before, after)
    ensures RowsOf(before).Keys <= RowsOf(after).Keys
    ensures rows == map[] || before.Some? ==> rows.Keys <= RowsOf(after).Keys
  {
  }

  lemma FirstWaveReferences(v: View, w: View, a: Tables, ok: bool)
    requires FirstWave(v, w, a, ok) && Referenced(Snapshot(v))
    ensures Referenced(Snapshot(w))
  {
    WrittenKeys(ItemsSchema(), TakeFields, a.items, v.items, w.items);
    WrittenKeys(ComponentsSchema(), TakeFields, a.comps, v.comps, w.comps);
    AttachedGrows(RowsOf(v.comps), RowsOf(w.comps), RowsOf(v.piis));
    LinkedGrows(RowsOf(v.items), RowsOf(w.items), RowsOf(v.comps), RowsOf(w.comps), RowsOf(v.conns));
  }

  lemma FirstWaveBrings(v: View, w: View, a: Tables)
    requires FirstWave(v, w, a, true)
    ensures a.items.Keys <= RowsOf(w.items).Keys && a.comps.Keys <= RowsOf(w.comps).Keys
  {
    WrittenKeys(ItemsSchema(), TakeFields, a.items, v.items, w.items);
    WrittenKeys(ComponentsSchema(), TakeFields, a.comps, v.comps, w.comps);
  }

  lemma PiisStayAttached(comps: Rows, a: Tables, before: Option<TableState>, after: Option<TableState>)
    requires Written(PiisSchema(), StayFirst, a.piis, before, after) && Attached(comps, RowsOf(before))
    requires Attached(a.comps, a.piis) && a.comps.Keys <= comps.Keys
    ensures Attached(comps, RowsOf(after))
  {
    AttachedGrows(a.comps, comps, a.piis);
    AttachedCombines(comps, RowsOf(before), a.piis);
  }

  lemma ConnectionsStayLinked(items: Rows, comps: Rows, a: Tables, before: Option<TableState>, after: Option<TableState>)
    requires Written(ConnectionsSchema(), JoinIds, a.conns, before, after) && Linked(items, comps, RowsOf(before))
    requires Linked(a.items, a.comps, a.conns) && a.items.Keys <= items.Keys && a.comps.Keys <= comps.Keys
    ensures Linked(items, comps, RowsOf(after))
  {
    LinkedGrows(a.items, items, a.comps, comps, a.conns);
    LinkedCombines(items, comps, RowsOf(before), a.conns);
  }

  lemma SecondWaveReferences(u: View, w: View, a: Tables, ok: bool)
    requires SecondWave(u, w, a, ok) && Referenced(Snapshot(u)) && Closed(a)
    requires a.items.Keys <= RowsOf(u.items).Keys && a.comps.Keys <= RowsOf(u.comps).Keys
    ensures Referenced(Snapshot(w))
  {
    PiisStayAttached(RowsOf(u.comps), a, u.piis, w.piis);
    ConnectionsStayLinked(RowsOf(u.items), RowsOf(u.comps), a, u.conns, w.conns);
  }

  /** References stay good through both waves, whether or not the second one succeeds. */
  lemma WavesReferences(v: View, u: View, w: View, a: Tables, ok: bool)
    requires FirstWave(v, u, a, true) && SecondWave(u, w, a, ok) && Referenced(Snapshot(v)) && Closed(a)
    ensures Referenced(Snapshot(w))
  {
    FirstWaveReferences(v, u, a, true);
    FirstWaveBrings(v, u, a);
    SecondWaveReferences(u, w, a, ok);
  }

  lemma FirstWaveFails(v: View, w: View, a: Tables)
    requires SchemaOk(v) && FirstWave(v, w, a, false)
    ensures Flushed(v, w, a, false)
  {
    if Referenced(Snapshot(v)) { FirstWaveReferences(v, w, a, false); }
  }

  lemma FirstWaveSchema(v: View, w: View, a: Tables, ok: bool)
    requires SchemaOk(v) && FirstWave(v, w, a, ok)
    ensures SchemaOk(w)
  {
  }

  /** The four writes together apply the accumulator to the tables. */
  lemma WavesApply(v: View, u: View, w: View, a: Tables)
    requires FirstWave(v, u, a, true) && SecondWave(u, w, a, true)
    ensures Snapshot(w) == Apply(Snapshot(v), a)
  {
    WrittenRows(ItemsSchema(), TakeFields, a.items, v.items, u.items);
    WrittenRows(ComponentsSchema(), TakeFields, a.comps, v.comps, u.comps);
    WrittenRows(PiisSchema(), StayFirst, a.piis, u.piis, w.piis);
    WrittenRows(ConnectionsSchema(), JoinIds, a.conns, u.conns, w.conns);
  }

  lemma WavesKeep(v: View, u: View, w: View, a: Tables, ok: bool)
    requires SchemaOk(v) && FirstWave(v, u, a, true) && SecondWave(u, w, a, ok)
    ensures SchemaOk(w) && Present(v) == Present(w) && (AllHealthy(v) ==> AllHealthy(w)) && ok == Writable(v, a)
  {
  }

  lemma WavesEnd(v: View, u: View, w: View, a: Tables, ok: bool)
    requires SchemaOk(v) && Closed(a) && FirstWave(v, u, a, true) && SecondWave(u, w, a, ok)
    ensures Flushed(v, w, a, ok)
  {
    WavesKeep(v, u, w, a, ok);
    if ok { WavesApply(v, u, w, a); }
    if Referenced(Snapshot(v)) { WavesReferences(v, u, w, a, ok); }
  }
}
