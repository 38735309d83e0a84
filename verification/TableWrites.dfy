/** Batch writes of keyed rows: the table operations behind each part of a flush. */
module TableWrites {
  import opened Values
  import opened TableSpec
  import opened Coherence
  import opened Combining
  import opened UniqueMerge
  import opened Accumulation

  // ----- the three ways a flush writes -----

  function DoNothing(): ConflictOptions {
    ConflictOptions(ConflictDoNothing, [], map[])
  }

  function MergeComponentIds(): ConflictOptions {
    ConflictOptions(ConflictDoUpdate, ["component_ids"], map["component_ids" := MergeValues])
  }

  /** Writing rec over a stored row in this mode leaves f of the two. */
  ghost predicate Follows(mode: Mode, f: (Record, Record) -> Record, pk: string, rec: Record)
    requires pk in rec
  {
    forall st: TableState {:trigger Write(mode, st, rec)} :: st.pk == pk && Key(pk, rec) in st.records ==>
      Write(mode, st, rec).records == st.records[Key(pk, rec) := f(st.records[Key(pk, rec)], rec)]
  }

  lemma UpsertFollows(pk: string, rec: Record)
    requires pk in rec
    ensures Follows(Upserting, TakeFields, pk, rec)
  {
    forall st: TableState | st.pk == pk && Key(pk, rec) in st.records
      ensures Write(Upserting, st, rec).records
           == st.records[Key(pk, rec) := TakeFields(st.records[Key(pk, rec)], rec)]
    {
      assert Write(Upserting, st, rec) == Blend(st, Key(pk, rec), rec);
    }
  }

  lemma StoreAgain(t: Rows, k: string)
    requires k in t
    ensures t[k := t[k]] == t
  {
  }

  lemma DoNothingFollows(pk: string, rec: Record)
    requires pk in rec
    ensures Follows(OnConflict(DoNothing()), StayFirst, pk, rec)
  {
    forall st: TableState | st.pk == pk && Key(pk, rec) in st.records
      ensures Write(OnConflict(DoNothing()), st, rec).records
           == st.records[Key(pk, rec) := StayFirst(st.records[Key(pk, rec)], rec)]
    {
      assert Write(OnConflict(DoNothing()), st, rec) == st;
      StoreAgain(st.records, Key(pk, rec));
    }
  }

  lemma MergeFollows(pk: string, rec: Record)
    requires pk in rec && "component_ids" in rec
    ensures Follows(OnConflict(MergeComponentIds()), JoinIds, pk, rec)
  {
    var opts := MergeComponentIds();
    forall st: TableState | st.pk == pk && Key(pk, rec) in st.records
      ensures Write(OnConflict(opts), st, rec).records
           == st.records[Key(pk, rec) := JoinIds(st.records[Key(pk, rec)], rec)]
    {
      var fields := ["component_ids"];
      assert fields[..|fields| - 1] == [] && fields[|fields| - 1] == "component_ids";
      assert UpdateFields(st, Key(pk, rec), rec, opts.mergeFuncs, []) == st;
      assert UpdateFields(st, Key(pk, rec), rec, opts.mergeFuncs, fields)
          == UpdateField(st, Key(pk, rec), rec, opts.mergeFuncs, "component_ids");
    }
  }

  // ----- listing the rows of a map -----

  /** recs lists the values of rows, in some order, without repeating a key. */
  ghost predicate Lists(recs: seq<Record>, keys: seq<string>, rows: Rows) {
    && |recs| == |keys| && NoDuplicates(keys) && (forall k :: k in keys <==> k in rows)
    && forall i :: 0 <= i < |keys| ==> keys[i] in rows && recs[i] == rows[keys[i]]
  }

  method MapValues(rows: Rows) returns (recs: seq<Record>, ghost keys: seq<string>)
    ensures Lists(recs, keys, rows)
    ensures |recs| == |rows| && forall k :: k in rows ==> rows[k] in recs
  {
    recs, keys := [], [];
    var todo := rows.Keys;
    while todo != {}
      invariant todo <= rows.Keys && |recs| == |keys| && NoDuplicates(keys)
      invariant |recs| + |todo| == |rows| && forall k :: k in rows && k !in todo ==> rows[k] in recs
      invariant forall k :: k in keys <==> k in rows && k !in todo
      invariant forall i :: 0 <= i < |keys| ==> keys[i] in rows && recs[i] == rows[keys[i]]
    {
      var k :| k in todo;
      recs, keys := recs + [rows[k]], keys + [k];
      todo := todo - {k};
    }
  }

  /** Every row is stored under the rendering of its primary key. */
  ghost predicate KeyedRows(pk: string, rows: Rows) {
    forall k :: k in rows ==> pk in rows[k] && Key(pk, rows[k]) == k
  }

  lemma ListsFront(recs: seq<Record>, keys: seq<string>, rows: Rows)
    requires Lists(recs, keys, rows) && recs != []
    ensures Lists(recs[..|recs| - 1], keys[..|keys| - 1], rows - {keys[|keys| - 1]})
  {
    var front, last := keys[..|keys| - 1], keys[|keys| - 1];
    assert keys == front + [last];
  }

  lemma CombineLast(f: (Record, Record) -> Record, t: Rows, rows: Rows, k: string)
    requires k in rows
    ensures var c := Combine(f, t, rows - {k});
      Combine(f, t, rows) == c[k := if k in c then f(c[k], rows[k]) else rows[k]]
  {
  }

  /** A batch of all rows of a map, in any order, combines the map into the table. */
  lemma {:induction false} BatchCombines(mode: Mode, f: (Record, Record) -> Record, st: TableState,
      recs: seq<Record>, keys: seq<string>, rows: Rows)
    requires Lists(recs, keys, rows) && KeyedRows(st.pk, rows)
    requires AllKeyed(st.pk, recs)
    requires forall k :: k in rows ==> Follows(mode, f, st.pk, rows[k])
    ensures WriteAll(mode, st, recs).records == Combine(f, st.records, rows)
    decreases |recs|
  {
    if recs == [] {
      assert rows == map[];
      CombineIdentity(f, st.records);
    } else {
      var front, k := recs[..|recs| - 1], keys[|keys| - 1];
      ListsFront(recs, keys, rows);
      BatchCombines(mode, f, st, front, keys[..|keys| - 1], rows - {k});
      CombineLast(f, st.records, rows, k);
      assert Follows(mode, f, st.pk, rows[k]);
    }
  }

  /** The batch operation for a mode that never reports a conflict. */
  function BatchOp(mode: Mode, recs: seq<Record>): Op {
    match mode
    case Overwrite => InsertBatch(recs)
    case Upserting => UpsertBatch(recs)
    case OnConflict(opts) => InsertBatchOnConflict(recs, opts)
  }

  ghost predicate Healthy(st: TableState) {
    Indexed(true, st) && Full(st)
  }

  lemma BatchSucceeds(mode: Mode, st: TableState, recs: seq<Record>)
    requires mode.OnConflict? ==> !mode.opts.action.ConflictError?
    requires AllKeyed(st.pk, recs)
    ensures WriteBatch(mode, st, recs) == Outcome(WriteAll(mode, st, recs), Ok)
  {
  }

  lemma FlushHealthy(mode: Mode, st: TableState, recs: seq<Record>)
    requires Healthy(st) && AllKeyed(st.pk, recs)
    requires mode.OnConflict? ==> !mode.opts.action.ConflictError?
    requires forall i :: 0 <= i < |recs| ==> Carries(st, recs[i])
    ensures Healthy(WriteAll(mode, st, recs))
  {
    WriteAllKeeps(true, mode, st, recs);
  }

  /** What one table write of a flush does to a table, and that it keeps exact indexes exact. */
  lemma FlushWrite(mode: Mode, f: (Record, Record) -> Record, st: TableState,
      recs: seq<Record>, keys: seq<string>, rows: Rows)
    requires mode.OnConflict? ==> !mode.opts.action.ConflictError?
    requires Lists(recs, keys, rows) && KeyedRows(st.pk, rows)
    requires forall k :: k in rows ==> Follows(mode, f, st.pk, rows[k]) && st.indexes.Keys <= rows[k].Keys
    ensures var out := WriteBatch(mode, st, recs);
      && out.status == Ok && out.state.pk == st.pk && out.state.indexes.Keys == st.indexes.Keys
      && out.state.records == Combine(f, st.records, rows)
      && (Healthy(st) ==> Healthy(out.state))
  {
    assert AllKeyed(st.pk, recs);
    BatchSucceeds(mode, st, recs);
    BatchCombines(mode, f, st, recs, keys, rows);
    if Healthy(st) {
      FlushHealthy(mode, st, recs);
    }
  }
}
