/** What every run of operations keeps between a table's records and its hand-maintained indexes. */
module Coherence {
  import opened Values
  import opened SecondaryIndex
  import opened TableSpec

  /** Record key to value, for the records that carry field f. */
  function Column(records: map<string, Record>, f: string): map<string, Value> {
    map k | k in records && f in records[k] :: records[k][f]
  }

  /**
   * exact: each index is precisely the inverse of its column, without stale, repeated or missing
   * keys and without empty buckets.  Not exact: no index misses a record.
   */
  ghost predicate Indexed(exact: bool, st: TableState) {
    forall f :: f in st.indexes ==> Reflects(exact, st.indexes[f], Column(st.records, f))
  }

  predicate Carries(st: TableState, rec: Record) {
    st.indexes.Keys <= rec.Keys
  }

  /** Every record carries every indexed field. */
  ghost predicate Full(st: TableState) {
    forall k :: k in st.records ==> Carries(st, st.records[k])
  }

  /** Every record is stored under the rendering of its own primary key. */
  ghost predicate SelfKeyed(st: TableState) {
    forall k :: k in st.records ==> st.pk in st.records[k] && Format(st.records[k][st.pk]) == k
  }

  // ----- the steps on one record -----

  lemma ColumnPut(records: map<string, Record>, k: string, rec: Record, f: string)
    ensures Column(records[k := rec], f)
         == if f in rec then Column(records, f)[k := rec[f]] else Column(records, f) - {k}
  {
  }

  lemma ColumnStays(records: map<string, Record>, k: string, rec: Record, f: string)
    requires k in records && (f in rec <==> f in records[k]) && (f in rec ==> rec[f] == records[k][f])
    ensures Column(records[k := rec], f) == Column(records, f)
  {
  }

  lemma PutKeeps(exact: bool, st: TableState, k: string, rec: Record)
    requires Indexed(exact, st)
    requires exact ==> k !in st.records
    ensures Indexed(exact, Put(st, k, rec))
  {
    var st' := Put(st, k, rec);
    forall f | f in st'.indexes
      ensures Reflects(exact, st'.indexes[f], Column(st'.records, f))
    {
      var p := Column(st.records, f);
      if f in rec {
        ReflectsAdd(exact, st.indexes[f], p, rec[f], k);
      } else {
        assert exact ==> p - {k} == p;
      }
      ColumnPut(st.records, k, rec, f);
    }
  }

  lemma EraseKeeps(exact: bool, st: TableState, k: string)
    requires Indexed(exact, st)
    ensures Indexed(exact, Erase(st, k))
  {
    var st' := Erase(st, k);
    forall f | k in st.records && f in st'.indexes
      ensures Reflects(exact, st'.indexes[f], Column(st'.records, f))
    {
      var p := Column(st.records, f);
      if f in st.records[k] {
        ReflectsRemove(exact, st.indexes[f], p, k);
      }
      assert Column(st'.records, f) == p - {k};
    }
  }

  lemma MoveKeeps(exact: bool, idx: Index, p: map<string, Value>, v: Value, k: string)
    requires Reflects(exact, idx, p) && k in p
    ensures Reflects(exact, Moved(idx, p[k], v, k), p[k := v])
  {
    ReflectsMove(exact, idx, p, v, k);
    assert p[k] == v ==> p[k := v] == p;
  }

  lemma BlendKeeps(exact: bool, st: TableState, k: string, rec: Record)
    requires Indexed(exact, st) && k in st.records
    requires forall f :: f in st.indexes && f in rec ==> f in st.records[k]
    ensures Indexed(exact, Blend(st, k, rec))
  {
    var st' := Blend(st, k, rec);
    forall f | f in st'.indexes
      ensures Reflects(exact, st'.indexes[f], Column(st'.records, f))
    {
      var p := Column(st.records, f);
      if f in rec {
        MoveKeeps(exact, st.indexes[f], p, rec[f], k);
        ColumnPut(st.records, k, st.records[k] + rec, f);
      } else {
        ColumnStays(st.records, k, st.records[k] + rec, f);
      }
    }
  }

  lemma UpdateFieldKeeps(exact: bool, st: TableState, k: string, rec: Record, merges: map<string, MergeFunc>, f: string)
    requires Indexed(exact, st) && k in st.records
    requires f in st.indexes && f in rec ==> f in st.records[k]
    ensures Indexed(exact, UpdateField(st, k, rec, merges, f))
  {
    var st' := UpdateField(st, k, rec, merges, f);
    forall g | g in st'.indexes
      ensures Reflects(exact, st'.indexes[g], Column(st'.records, g))
    {
      var p := Column(st.records, g);
      if g == f && f in rec {
        var v := Settled(st.records[k], rec, merges, f);
        MoveKeeps(exact, st.indexes[f], p, v, k);
        assert Column(st'.records, f) == p[k := v];
      } else {
        assert Column(st'.records, g) == p;
      }
    }
  }

  lemma {:induction false} UpdateFieldsKeeps(exact: bool, st: TableState, k: string, rec: Record,
      merges: map<string, MergeFunc>, fields: seq<string>)
    requires Indexed(exact, st) && Full(st) && k in st.records
    ensures Indexed(exact, UpdateFields(st, k, rec, merges, fields))
    ensures Full(UpdateFields(st, k, rec, merges, fields))
  {
    if fields != [] {
      var front := fields[..|fields| - 1];
      UpdateFieldsKeeps(exact, st, k, rec, merges, front);
      UpdateFieldKeeps(exact, UpdateFields(st, k, rec, merges, front), k, rec, merges, fields[|fields| - 1]);
    }
  }

  /** Every finite set can be listed without repetition. */
  lemma {:induction false} Listing(s: set<string>) returns (l: seq<string>)
    ensures NoDuplicates(l) && (set x | x in l) == s
    decreases |s|
  {
    if s == {} {
      l := [];
    } else {
      var x :| x in s;
      var rest := Listing(s - {x});
      assert x !in rest by { assert x !in (set y | y in rest); }
      l := rest + [x];
      assert (set y | y in l) == (set y | y in rest) + {x};
    }
  }

  lemma UpdateKeeps(exact: bool, st: TableState, k: string, rec: Record, opts: ConflictOptions)
    requires Indexed(exact, st) && Full(st) && k in st.records
    ensures Indexed(exact, Update(st, k, rec, opts)) && Full(Update(st, k, rec, opts))
  {
    var fields := opts.updateFields;
    if fields == [] {
      fields := Listing(rec.Keys);
      UpdateOrderIrrelevant(st, k, rec, opts.mergeFuncs, fields);
    }
    UpdateFieldsKeeps(exact, st, k, rec, opts.mergeFuncs, fields);
  }

  // ----- operations -----

  /** A record may leave indexed fields out only if the operation keeps those of a stored record. */
  predicate Fits(st: TableState, mode: Mode, rec: Record)
    requires st.pk in rec
  {
    || Carries(st, rec)
    || (&& Key(st.pk, rec) in st.records
        && (mode.Upserting? || (mode.OnConflict? && !mode.opts.action.ConflictError?)))
  }

  lemma WriteKeeps(exact: bool, mode: Mode, st: TableState, rec: Record)
    requires Indexed(exact, st) && Full(st)
    requires st.pk in rec && Fits(st, mode, rec)
    requires exact && mode.OnConflict? && mode.opts.action.ConflictError? ==> Key(st.pk, rec) !in st.records
    ensures Indexed(exact, Write(mode, st, rec)) && Full(Write(mode, st, rec))
  {
    var k := Key(st.pk, rec);
    if k !in st.records || (mode.OnConflict? && mode.opts.action.ConflictError?) {
      PutKeeps(exact, st, k, rec);
    } else if mode.Overwrite? {
      EraseKeeps(exact, st, k);
      PutKeeps(exact, Erase(st, k), k, rec);
    } else if mode.Upserting? {
      BlendKeeps(exact, st, k, rec);
    } else if mode.opts.action.ConflictDoUpdate? {
      UpdateKeeps(exact, st, k, rec, mode.opts);
    }
  }

  ghost predicate DistinctKeys(pk: string, recs: seq<Record>)
    requires AllKeyed(pk, recs)
  {
    forall i, j :: 0 <= i < j < |recs| ==> Key(pk, recs[i]) != Key(pk, recs[j])
  }

  lemma {:induction false} WriteAllLeavesFree(mode: Mode, st: TableState, recs: seq<Record>, k: string)
    requires AllKeyed(st.pk, recs) && k !in st.records
    requires forall i :: 0 <= i < |recs| ==> Key(st.pk, recs[i]) != k
    ensures k !in WriteAll(mode, st, recs).records
  {
    if recs != [] {
      WriteAllLeavesFree(mode, st, recs[..|recs| - 1], k);
    }
  }

  ghost predicate BatchFits(exact: bool, mode: Mode, st: TableState, recs: seq<Record>) {
    AllKeyed(st.pk, recs) ==>
      && (forall i :: 0 <= i < |recs| ==> Fits(st, mode, recs[i]))
      && (exact && mode.OnConflict? && mode.opts.action.ConflictError? ==> DistinctKeys(st.pk, recs))
  }

  lemma {:induction false} WriteAllKeeps(exact: bool, mode: Mode, st: TableState, recs: seq<Record>)
    requires Indexed(exact, st) && Full(st)
    requires AllKeyed(st.pk, recs) && BatchFits(exact, mode, st, recs)
    requires exact && mode.OnConflict? && mode.opts.action.ConflictError? ==> FirstTaken(st, recs) == |recs|
    ensures Indexed(exact, WriteAll(mode, st, recs)) && Full(WriteAll(mode, st, recs))
    decreases |recs|
  {
    if recs != [] {
      var front, last := recs[..|recs| - 1], recs[|recs| - 1];
      WriteAllKeeps(exact, mode, st, front);
      if exact && mode.OnConflict? && mode.opts.action.ConflictError? {
        WriteAllLeavesFree(mode, st, front, Key(st.pk, last));
      }
      WriteKeeps(exact, mode, WriteAll(mode, st, front), last);
    }
  }

  /**
   * What the code asks of its callers for the indexes to stay right.  Only exactness needs a fresh
   * key for Insert and distinct keys in a ConflictError batch.
   */
  ghost predicate Proper(exact: bool, op: Op, st: TableState) {
    match op
    case Insert(rec) => st.pk in rec ==> Carries(st, rec) && (exact ==> Key(st.pk, rec) !in st.records)
    case InsertOnConflict(rec, opts) => BatchFits(exact, OnConflict(opts), st, [rec])
    case Upsert(rec) => BatchFits(exact, Upserting, st, [rec])
    case InsertBatch(recs) => BatchFits(exact, Overwrite, st, recs)
    case InsertBatchOnConflict(recs, opts) => BatchFits(exact, OnConflict(opts), st, recs)
    case UpsertBatch(recs) => BatchFits(exact, Upserting, st, recs)
    case Delete(_) => true
  }

  lemma PerformKeeps(exact: bool, op: Op, st: TableState)
    requires Indexed(exact, st) && Full(st) && Proper(exact, op, st)
    ensures Indexed(exact, Perform(op, st).state) && Full(Perform(op, st).state)
  {
    match op
    case Insert(rec) =>
      if st.pk in rec { PutKeeps(exact, st, Key(st.pk, rec), rec); }
    case InsertOnConflict(rec, opts) =>
      if st.pk in rec {
        assert [rec][0] == rec && AllKeyed(st.pk, [rec]);
        if Perform(op, st).status == Ok { WriteKeeps(exact, OnConflict(opts), st, rec); }
      }
    case Upsert(rec) =>
      if st.pk in rec {
        assert [rec][0] == rec && AllKeyed(st.pk, [rec]);
        WriteKeeps(exact, Upserting, st, rec);
      }
    case InsertBatch(recs) => BatchKeeps(exact, Overwrite, st, recs);
    case InsertBatchOnConflict(recs, opts) => BatchKeeps(exact, OnConflict(opts), st, recs);
    case UpsertBatch(recs) => BatchKeeps(exact, Upserting, st, recs);
    case Delete(key) => EraseKeeps(exact, st, Format(key));
  }

  lemma BatchKeeps(exact: bool, mode: Mode, st: TableState, recs: seq<Record>)
    requires Indexed(exact, st) && Full(st) && BatchFits(exact, mode, st, recs)
    ensures Indexed(exact, WriteBatch(mode, st, recs).state) && Full(WriteBatch(mode, st, recs).state)
  {
    if WriteBatch(mode, st, recs).status == Ok {
      WriteAllKeeps(exact, mode, st, recs);
    }
  }

  ghost predicate ProperRun(exact: bool, ops: seq<Op>, st: TableState) {
    ops == [] || (Proper(exact, ops[0], st) && ProperRun(exact, ops[1..], Perform(ops[0], st).state))
  }

  /**
   * Every run of proper operations keeps the indexes exact; with no demand on keys at all it still
   * keeps them complete, so that no index lookup can miss a record.
   */
  lemma {:induction false} RunKeepsIndexes(exact: bool, ops: seq<Op>, st: TableState)
    requires Indexed(exact, st) && Full(st) && ProperRun(exact, ops, st)
    ensures Indexed(exact, RunOps(ops, st)) && Full(RunOps(ops, st))
    decreases |ops|
  {
    if ops != [] {
      PerformKeeps(exact, ops[0], st);
      RunKeepsIndexes(exact, ops[1..], Perform(ops[0], st).state);
    }
  }

  // ----- records stay under their own key -----

  /** The merge functions of opts never change how a primary key is rendered. */
  ghost predicate PkStable(pk: string, mode: Mode) {
    mode.OnConflict? && pk in mode.opts.mergeFuncs ==>
      forall a, b :: Format(a) == Format(b) ==> Format(mode.opts.mergeFuncs[pk](a, b)) == Format(a)
  }

  ghost predicate StablePk(pk: string, op: Op) {
    match op
    case InsertOnConflict(_, opts) => PkStable(pk, OnConflict(opts))
    case InsertBatchOnConflict(_, opts) => PkStable(pk, OnConflict(opts))
    case _ => true
  }

  lemma UpdateFieldSelfKeyed(st: TableState, k: string, rec: Record, opts: ConflictOptions, f: string)
    requires SelfKeyed(st) && k in st.records && PkStable(st.pk, OnConflict(opts))
    requires st.pk in rec && Key(st.pk, rec) == k
    ensures SelfKeyed(UpdateField(st, k, rec, opts.mergeFuncs, f))
  {
  }

  lemma {:induction false} UpdateFieldsSelfKeyed(st: TableState, k: string, rec: Record, opts: ConflictOptions,
      fields: seq<string>)
    requires SelfKeyed(st) && k in st.records && PkStable(st.pk, OnConflict(opts))
    requires st.pk in rec && Key(st.pk, rec) == k
    ensures SelfKeyed(UpdateFields(st, k, rec, opts.mergeFuncs, fields))
  {
    if fields != [] {
      var front := fields[..|fields| - 1];
      UpdateFieldsSelfKeyed(st, k, rec, opts, front);
      UpdateFieldSelfKeyed(UpdateFields(st, k, rec, opts.mergeFuncs, front), k, rec, opts, fields[|fields| - 1]);
    }
  }

  lemma UpdateSelfKeyed(st: TableState, k: string, rec: Record, opts: ConflictOptions)
    requires SelfKeyed(st) && k in st.records && PkStable(st.pk, OnConflict(opts))
    requires st.pk in rec && Key(st.pk, rec) == k
    ensures SelfKeyed(Update(st, k, rec, opts))
  {
    var fields := opts.updateFields;
    if fields == [] {
      fields := Listing(rec.Keys);
      UpdateOrderIrrelevant(st, k, rec, opts.mergeFuncs, fields);
    }
    UpdateFieldsSelfKeyed(st, k, rec, opts, fields);
  }

  lemma WriteSelfKeyed(mode: Mode, st: TableState, rec: Record)
    requires SelfKeyed(st) && st.pk in rec && PkStable(st.pk, mode)
    ensures SelfKeyed(Write(mode, st, rec))
  {
    var k := Key(st.pk, rec);
    if k in st.records && mode.OnConflict? && mode.opts.action.ConflictDoUpdate? {
      UpdateSelfKeyed(st, k, rec, mode.opts);
    }
  }

  lemma {:induction false} WriteAllSelfKeyed(mode: Mode, st: TableState, recs: seq<Record>)
    requires SelfKeyed(st) && AllKeyed(st.pk, recs) && PkStable(st.pk, mode)
    ensures SelfKeyed(WriteAll(mode, st, recs))
  {
    if recs != [] {
      WriteAllSelfKeyed(mode, st, recs[..|recs| - 1]);
      WriteSelfKeyed(mode, WriteAll(mode, st, recs[..|recs| - 1]), recs[|recs| - 1]);
    }
  }

  lemma PerformSelfKeyed(op: Op, st: TableState)
    requires SelfKeyed(st) && StablePk(st.pk, op)
    ensures SelfKeyed(Perform(op, st).state) && Perform(op, st).state.pk == st.pk
  {
    match op
    case Insert(rec) =>
    case InsertOnConflict(rec, opts) => if st.pk in rec { WriteSelfKeyed(OnConflict(opts), st, rec); }
    case Upsert(rec) => if st.pk in rec { WriteSelfKeyed(Upserting, st, rec); }
    case InsertBatch(recs) =>
      if Perform(op, st).status == Ok { WriteAllSelfKeyed(Overwrite, st, recs); }
    case InsertBatchOnConflict(recs, opts) =>
      if Perform(op, st).status == Ok { WriteAllSelfKeyed(OnConflict(opts), st, recs); }
    case UpsertBatch(recs) =>
      if Perform(op, st).status == Ok { WriteAllSelfKeyed(Upserting, st, recs); }
    case Delete(key) =>
  }

  /** Over any run whose merge functions leave primary keys alone, records stay under their own key. */
  lemma {:induction false} RunKeepsKeys(ops: seq<Op>, st: TableState)
    requires SelfKeyed(st) && forall i :: 0 <= i < |ops| ==> StablePk(st.pk, ops[i])
    ensures SelfKeyed(RunOps(ops, st))
    decreases |ops|
  {
    if ops != [] {
      PerformSelfKeyed(ops[0], st);
      RunKeepsKeys(ops[1..], Perform(ops[0], st).state);
    }
  }
}
