/** What each write leaves in the records, stated on records alone, apart from how it is done. */
module RecordWrites {
  import opened Values
  import opened TableSpec

  // ----- one record over another -----

  /** The fields of rec over those of prev. */
  ghost predicate Overlays(prev: Record, rec: Record, after: Record) {
    && after.Keys == prev.Keys + rec.Keys
    && forall f :: f in after ==> after[f] == if f in rec then rec[f] else prev[f]
  }

  /** A stored value merged n times with an incoming one. */
  function Merging(m: MergeFunc, v: Value, incoming: Value, n: nat): Value {
    if n == 0 then v else m(Merging(m, v, incoming, n - 1), incoming)
  }

  /** How often a DO UPDATE writes a field: once without a list, else as often as it is listed. */
  function Writings(opts: ConflictOptions, f: string): nat {
    if opts.updateFields == [] then 1 else multiset(opts.updateFields)[f]
  }

  ghost predicate UpdatesField(prev: Record, rec: Record, opts: ConflictOptions, after: Record, f: string) {
    if f in rec && Writings(opts, f) > 0 then
      && f in after
      && after[f] == if f in opts.mergeFuncs
                     then Merging(opts.mergeFuncs[f], Lookup(prev, f), rec[f], Writings(opts, f)) else rec[f]
    else (f in after <==> f in prev) && (f in prev ==> after[f] == prev[f])
  }

  /** What a DO UPDATE leaves: chosen fields take the new or the merged value, the others stay. */
  ghost predicate Updates(prev: Record, rec: Record, opts: ConflictOptions, after: Record) {
    forall f :: UpdatesField(prev, rec, opts, after, f)
  }

  /** What a write of rec in this mode leaves under its key, where old was stored. */
  ghost predicate Leaves(mode: Mode, stored: Option<Record>, rec: Record, after: Record) {
    if stored.None? then after == rec
    else
      match mode
      case Overwrite => after == rec
      case Upserting => Overlays(stored.value, rec, after)
      case OnConflict(opts) =>
        match opts.action
        case ConflictError => after == rec
        case ConflictDoNothing => after == stored.value
        case ConflictDoUpdate => Updates(stored.value, rec, opts, after)
  }

  function At(records: map<string, Record>, k: string): Option<Record> {
    if k in records then Some(records[k]) else None
  }

  /** One record written: its key is there, with what the mode leaves; all other records stay. */
  ghost predicate Writes(mode: Mode, pk: string, before: map<string, Record>, rec: Record, after: map<string, Record>) {
    && pk in rec
    && var k := Format(rec[pk]);
       && after.Keys == before.Keys + {k}
       && (forall j :: j in before && j != k ==> after[j] == before[j])
       && Leaves(mode, At(before, k), rec, after[k])
  }

  // ----- the statement is complete -----

  lemma UpdatesOneWay(prev: Record, rec: Record, opts: ConflictOptions, a: Record, b: Record)
    requires Updates(prev, rec, opts, a) && Updates(prev, rec, opts, b)
    ensures a == b
  {
    forall f
      ensures f in a.Keys <==> f in b.Keys
      ensures f in a ==> a[f] == b[f]
    {
      assert UpdatesField(prev, rec, opts, a, f) && UpdatesField(prev, rec, opts, b, f);
    }
    SameMap(a, b);
  }

  lemma LeavesOneWay(mode: Mode, stored: Option<Record>, rec: Record, a: Record, b: Record)
    requires Leaves(mode, stored, rec, a) && Leaves(mode, stored, rec, b)
    ensures a == b
  {
    if stored.Some? {
      if mode.OnConflict? && mode.opts.action.ConflictDoUpdate? { UpdatesOneWay(stored.value, rec, mode.opts, a, b); }
      if mode.Upserting? { SameMap(a, b); }
    }
  }

  /** Nothing about the records is left open: at most one outcome satisfies the statement. */
  lemma WritesOneWay(mode: Mode, pk: string, before: map<string, Record>, rec: Record,
      a: map<string, Record>, b: map<string, Record>)
    requires Writes(mode, pk, before, rec, a) && Writes(mode, pk, before, rec, b)
    ensures a == b
  {
    var k := Format(rec[pk]);
    LeavesOneWay(mode, At(before, k), rec, a[k], b[k]);
    forall j | j in a
      ensures a[j] == b[j]
    {
      assert j != k ==> j in before;
    }
    SameMap(a, b);
  }

  // ----- DO UPDATE -----

  lemma {:induction false} FieldsUpdate(st: TableState, k: string, rec: Record, merges: map<string, MergeFunc>,
      fields: seq<string>, f: string)
    requires k in st.records
    ensures var prev, out, n := st.records[k], UpdateFields(st, k, rec, merges, fields).records[k], multiset(fields)[f];
      if f in rec && n > 0 then
        f in out && out[f] == if f in merges then Merging(merges[f], Lookup(prev, f), rec[f], n) else rec[f]
      else (f in out <==> f in prev) && (f in prev ==> out[f] == prev[f])
  {
    if fields != [] {
      var front, last := fields[..|fields| - 1], fields[|fields| - 1];
      FieldsUpdate(st, k, rec, merges, front, f);
      assert fields == front + [last];
    }
  }

  lemma {:induction false} OthersStay(st: TableState, k: string, rec: Record, merges: map<string, MergeFunc>,
      fields: seq<string>)
    requires k in st.records
    ensures var out := UpdateFields(st, k, rec, merges, fields).records;
      forall j :: j in st.records && j != k ==> out[j] == st.records[j]
  {
    if fields != [] {
      OthersStay(st, k, rec, merges, fields[..|fields| - 1]);
    }
  }

  lemma UpdateLeaves(st: TableState, k: string, rec: Record, opts: ConflictOptions)
    requires k in st.records
    ensures var out := Update(st, k, rec, opts).records;
      && out.Keys == st.records.Keys && Updates(st.records[k], rec, opts, out[k])
      && forall j :: j in st.records && j != k ==> out[j] == st.records[j]
  {
    var prev, out := st.records[k], Update(st, k, rec, opts).records;
    OthersStay(st, k, rec, opts.mergeFuncs, opts.updateFields);
    forall f
      ensures UpdatesField(prev, rec, opts, out[k], f)
    {
      if opts.updateFields == [] {
        if f in rec && f in opts.mergeFuncs {
          MergingOnce(opts.mergeFuncs[f], Lookup(prev, f), rec[f]);
        }
      } else {
        FieldsUpdate(st, k, rec, opts.mergeFuncs, opts.updateFields, f);
      }
    }
  }

  lemma MergingOnce(m: MergeFunc, v: Value, incoming: Value)
    ensures Merging(m, v, incoming, 1) == m(v, incoming)
  {
    assert Merging(m, v, incoming, 0) == v;
  }

  lemma ListedOnce(fields: seq<string>, f: string)
    requires NoDuplicates(fields)
    ensures multiset(fields)[f] == if f in fields then 1 else 0
  {
    if i :| 0 <= i < |fields| && fields[i] == f {
      assert fields == fields[..i] + [f] + fields[i + 1..];
      assert f !in fields[..i] && f !in fields[i + 1..];
      assert multiset(fields) == multiset(fields[..i]) + multiset{f} + multiset(fields[i + 1..]);
    } else {
      assert f !in fields;
    }
  }

  /** The chosen fields of the incoming record: all of them, or those listed. */
  predicate Chosen(rec: Record, opts: ConflictOptions, f: string) {
    f in rec && (opts.updateFields == [] || f in opts.updateFields)
  }

  /**
   * InsertOnConflict with DO UPDATE over a stored record, with no field list or a list of distinct
   * fields: every chosen field is merged if it has a merge function and takes the new value if not,
   * every other field stays, no field appears from elsewhere, and no other record changes.
   */
  lemma DoUpdateLeaves(st: TableState, rec: Record, opts: ConflictOptions)
    requires opts.action.ConflictDoUpdate? && NoDuplicates(opts.updateFields)
    requires st.pk in rec && Format(rec[st.pk]) in st.records
    ensures var k := Format(rec[st.pk]); var prev := st.records[k];
      var out := Perform(InsertOnConflict(rec, opts), st); var after := out.state.records;
      && out.status == Ok && after.Keys == st.records.Keys
      && (forall j :: j in st.records && j != k ==> after[j] == st.records[j])
      && (forall f :: f in after[k] <==> f in prev || Chosen(rec, opts, f))
      && (forall f :: Chosen(rec, opts, f) ==>
           f in after[k] &&
           after[k][f] == if f in opts.mergeFuncs then opts.mergeFuncs[f](Lookup(prev, f), rec[f]) else rec[f])
      && (forall f :: f in prev && !Chosen(rec, opts, f) ==> f in after[k] && after[k][f] == prev[f])
  {
    var k := Format(rec[st.pk]);
    UpdateLeaves(st, k, rec, opts);
    UpdatesOnce(st.records[k], rec, opts, Update(st, k, rec, opts).records[k]);
  }

  /** With distinct fields every merge happens once. */
  lemma UpdatesOnce(prev: Record, rec: Record, opts: ConflictOptions, after: Record)
    requires NoDuplicates(opts.updateFields) && Updates(prev, rec, opts, after)
    ensures forall f :: f in after <==> f in prev || Chosen(rec, opts, f)
    ensures forall f :: Chosen(rec, opts, f) ==>
      f in after && after[f] == if f in opts.mergeFuncs then opts.mergeFuncs[f](Lookup(prev, f), rec[f]) else rec[f]
    ensures forall f :: f in prev && !Chosen(rec, opts, f) ==> f in after && after[f] == prev[f]
  {
    forall f
      ensures f in after <==> f in prev || Chosen(rec, opts, f)
      ensures Chosen(rec, opts, f) ==>
        after[f] == if f in opts.mergeFuncs then opts.mergeFuncs[f](Lookup(prev, f), rec[f]) else rec[f]
      ensures f in prev && !Chosen(rec, opts, f) ==> after[f] == prev[f]
    {
      assert UpdatesField(prev, rec, opts, after, f);
      ListedOnce(opts.updateFields, f);
      if Chosen(rec, opts, f) && f in opts.mergeFuncs {
        MergingOnce(opts.mergeFuncs[f], Lookup(prev, f), rec[f]);
      }
    }
  }

  // ----- single writes -----

  lemma WriteLeaves(mode: Mode, st: TableState, rec: Record)
    requires st.pk in rec
    ensures Writes(mode, st.pk, st.records, rec, Write(mode, st, rec).records)
  {
    var k := Format(rec[st.pk]);
    if k in st.records && mode.OnConflict? && mode.opts.action.ConflictDoUpdate? {
      UpdateLeaves(st, k, rec, mode.opts);
    }
  }

  /** Whether a mutator succeeds, told from the records and the arguments. */
  ghost predicate Accepted(mode: Mode, pk: string, before: map<string, Record>, recs: seq<Record>) {
    && (forall i :: 0 <= i < |recs| ==> pk in recs[i])
    && (mode.OnConflict? && mode.opts.action.ConflictError? ==>
          forall i :: 0 <= i < |recs| ==> pk in recs[i] && Format(recs[i][pk]) !in before)
  }

  /**
   * Each single operation: whether it succeeds, and the records after it.  Insert stores its record
   * over whatever was there, Delete takes out the one key, a refused operation changes nothing.
   */
  lemma PerformLeaves(op: Op, st: TableState)
    requires op.Insert? || op.InsertOnConflict? || op.Upsert? || op.Delete?
    ensures var out := Perform(op, st);
      match op
      case Insert(rec) =>
        && (out.status == Ok <==> st.pk in rec)
        && (out.status == Ok ==> out.state.records == st.records[Format(rec[st.pk]) := rec])
      case InsertOnConflict(rec, opts) =>
        && (out.status == Ok <==> Accepted(OnConflict(opts), st.pk, st.records, [rec]))
        && (out.status == Ok ==> Writes(OnConflict(opts), st.pk, st.records, rec, out.state.records))
      case Upsert(rec) =>
        && (out.status == Ok <==> st.pk in rec)
        && (out.status == Ok ==> Writes(Upserting, st.pk, st.records, rec, out.state.records))
      case Delete(key) => out.status == Ok && out.state.records == st.records - {Format(key)}
      case _ => true
    ensures Perform(op, st).status != Ok ==> Perform(op, st).state == st
  {
    match op
    case InsertOnConflict(rec, opts) =>
      assert [rec][0] == rec;
      if st.pk in rec { WriteLeaves(OnConflict(opts), st, rec); }
    case Upsert(rec) => if st.pk in rec { WriteLeaves(Upserting, st, rec); }
    case _ =>
  }

  // ----- batches -----

  /** The records go in one after the other. */
  ghost predicate WritesInTurn(mode: Mode, pk: string, states: seq<map<string, Record>>, recs: seq<Record>) {
    && |states| == |recs| + 1
    && forall i :: 0 <= i < |recs| ==> Writes(mode, pk, states[i], recs[i], states[i + 1])
  }

  ghost predicate GoInTurn(mode: Mode, pk: string, before: map<string, Record>, recs: seq<Record>,
      after: map<string, Record>)
  {
    exists states :: WritesInTurn(mode, pk, states, recs) && states[0] == before && states[|recs|] == after
  }

  lemma WriteAllSplits(mode: Mode, st: TableState, recs: seq<Record>)
    requires AllKeyed(st.pk, recs) && recs != []
    ensures WriteAll(mode, st, recs) == Write(mode, WriteAll(mode, st, recs[..|recs| - 1]), recs[|recs| - 1])
  {
  }

  lemma {:induction false} AllInTurn(mode: Mode, st: TableState, recs: seq<Record>) returns (states: seq<map<string, Record>>)
    requires AllKeyed(st.pk, recs)
    ensures WritesInTurn(mode, st.pk, states, recs)
    ensures states[0] == st.records && states[|recs|] == WriteAll(mode, st, recs).records
  {
    if recs == [] {
      states := [st.records];
    } else {
      var front, last := recs[..|recs| - 1], recs[|recs| - 1];
      var before := AllInTurn(mode, st, front);
      WriteLeaves(mode, WriteAll(mode, st, front), last);
      WriteAllSplits(mode, st, recs);
      states := before + [WriteAll(mode, st, recs).records];
      OneMoreTurn(mode, st.pk, before, recs, states);
    }
  }

  lemma OneMoreTurn(mode: Mode, pk: string, before: seq<map<string, Record>>, recs: seq<Record>,
      states: seq<map<string, Record>>)
    requires recs != [] && WritesInTurn(mode, pk, before, recs[..|recs| - 1])
    requires |states| == |recs| + 1 && states[..|recs|] == before
    requires Writes(mode, pk, before[|recs| - 1], recs[|recs| - 1], states[|recs|])
    ensures WritesInTurn(mode, pk, states, recs)
  {
    var front := recs[..|recs| - 1];
    forall i | 0 <= i < |recs|
      ensures Writes(mode, pk, states[i], recs[i], states[i + 1])
    {
      assert states[i] == before[i];
      if i < |front| {
        assert Writes(mode, pk, before[i], front[i], before[i + 1]) && states[i + 1] == before[i + 1];
      }
    }
  }

  lemma BatchOutcome(mode: Mode, st: TableState, recs: seq<Record>)
    ensures var out := WriteBatch(mode, st, recs);
      && (out.status == Ok <==> Accepted(mode, st.pk, st.records, recs))
      && (if out.status == Ok then AllKeyed(st.pk, recs) && out.state == WriteAll(mode, st, recs) else out.state == st)
  {
  }

  /**
   * A batch succeeds iff every record has the primary key and, for ConflictError, no key is stored
   * yet.  If it fails nothing changes; if it succeeds its records have gone in one after the other.
   */
  lemma BatchWrites(mode: Mode, st: TableState, recs: seq<Record>)
    ensures var out := WriteBatch(mode, st, recs);
      && (out.status == Ok <==> Accepted(mode, st.pk, st.records, recs))
      && (out.status != Ok ==> out.state == st)
      && (out.status == Ok ==> GoInTurn(mode, st.pk, st.records, recs, out.state.records))
  {
    BatchOutcome(mode, st, recs);
    if Accepted(mode, st.pk, st.records, recs) {
      var states := AllInTurn(mode, st, recs);
    }
  }

  lemma {:induction false} KeyUntouched(mode: Mode, st: TableState, recs: seq<Record>, k: string)
    requires AllKeyed(st.pk, recs) && forall i :: 0 <= i < |recs| ==> Format(recs[i][st.pk]) != k
    ensures At(WriteAll(mode, st, recs).records, k) == At(st.records, k)
  {
    if recs != [] {
      var front := recs[..|recs| - 1];
      KeyUntouched(mode, st, front, k);
      WriteLeaves(mode, WriteAll(mode, st, front), recs[|recs| - 1]);
    }
  }

  lemma FinalWritten(mode: Mode, st: TableState, recs: seq<Record>)
    requires AllKeyed(st.pk, recs) && recs != []
    ensures var last := recs[|recs| - 1]; var k, out := Format(last[st.pk]), WriteAll(mode, st, recs).records;
      k in out && Leaves(mode, At(WriteAll(mode, st, recs[..|recs| - 1]).records, k), last, out[k])
  {
    WriteAllSplits(mode, st, recs);
    WriteLeaves(mode, WriteAll(mode, st, recs[..|recs| - 1]), recs[|recs| - 1]);
  }

  lemma FinalElsewhere(mode: Mode, st: TableState, recs: seq<Record>, k: string)
    requires AllKeyed(st.pk, recs) && recs != [] && Format(recs[|recs| - 1][st.pk]) != k
    ensures At(WriteAll(mode, st, recs).records, k) == At(WriteAll(mode, st, recs[..|recs| - 1]).records, k)
  {
    WriteAllSplits(mode, st, recs);
    WriteLeaves(mode, WriteAll(mode, st, recs[..|recs| - 1]), recs[|recs| - 1]);
  }

  lemma StepElsewhere(mode: Mode, st: TableState, recs: seq<Record>, m: nat, k: string)
    requires AllKeyed(st.pk, recs) && m < |recs| && Format(recs[m][st.pk]) != k
    ensures At(WriteAll(mode, st, recs[..m + 1]).records, k) == At(WriteAll(mode, st, recs[..m]).records, k)
  {
    PrefixNext(recs, m);
    FinalElsewhere(mode, st, recs[..m + 1], k);
  }

  /** Later records with other keys leave what is under a key alone. */
  lemma {:induction false} StaysAfter(mode: Mode, st: TableState, recs: seq<Record>, n: nat, m: nat, k: string)
    requires AllKeyed(st.pk, recs) && n <= m <= |recs|
    requires forall j :: n <= j < m ==> Format(recs[j][st.pk]) != k
    ensures At(WriteAll(mode, st, recs[..m]).records, k) == At(WriteAll(mode, st, recs[..n]).records, k)
    decreases m
  {
    if n < m {
      StaysAfter(mode, st, recs, n, m - 1, k);
      StepElsewhere(mode, st, recs, m - 1, k);
    }
  }

  /**
   * Of the records of a batch with one key, the last is written over what the others left; with
   * distinct keys that is what was stored before the batch.
   */
  lemma LastWritten(mode: Mode, st: TableState, recs: seq<Record>, i: nat)
    requires AllKeyed(st.pk, recs) && i < |recs|
    requires forall j :: i < j < |recs| ==> Format(recs[j][st.pk]) != Format(recs[i][st.pk])
    ensures var k, out := Format(recs[i][st.pk]), WriteAll(mode, st, recs).records;
      k in out && Leaves(mode, At(WriteAll(mode, st, recs[..i]).records, k), recs[i], out[k])
  {
    PrefixNext(recs, i);
    FinalWritten(mode, st, recs[..i + 1]);
    StaysAfter(mode, st, recs, i + 1, |recs|, Format(recs[i][st.pk]));
    WholePrefix(recs);
  }

  /** After an InsertBatch each key of the batch holds the last record that has it. */
  lemma InsertBatchStoresLast(st: TableState, recs: seq<Record>, i: nat)
    requires i < |recs| && forall j :: 0 <= j < |recs| ==> st.pk in recs[j]
    requires forall j :: i < j < |recs| ==> Format(recs[j][st.pk]) != Format(recs[i][st.pk])
    ensures var out := Perform(InsertBatch(recs), st);
      && out.status == Ok && Format(recs[i][st.pk]) in out.state.records
      && out.state.records[Format(recs[i][st.pk])] == recs[i]
  {
    BatchOutcome(Overwrite, st, recs);
    LastWritten(Overwrite, st, recs, i);
  }

  /** A batch with distinct keys does to each record what its single form does to the stored one. */
  lemma DistinctBatchLeaves(mode: Mode, st: TableState, recs: seq<Record>, i: nat)
    requires Accepted(mode, st.pk, st.records, recs) && i < |recs|
    requires forall a, b :: 0 <= a < b < |recs| ==> Format(recs[a][st.pk]) != Format(recs[b][st.pk])
    ensures var k, out := Format(recs[i][st.pk]), WriteBatch(mode, st, recs).state.records;
      k in out && Leaves(mode, At(st.records, k), recs[i], out[k])
  {
    BatchOutcome(mode, st, recs);
    LastWritten(mode, st, recs, i);
    KeyUntouched(mode, st, recs[..i], Format(recs[i][st.pk]));
  }

  /** Records whose key does not occur in a batch stay. */
  lemma BatchKeepsOthers(mode: Mode, st: TableState, recs: seq<Record>, k: string)
    requires forall i :: 0 <= i < |recs| && st.pk in recs[i] ==> Format(recs[i][st.pk]) != k
    ensures At(WriteBatch(mode, st, recs).state.records, k) == At(st.records, k)
  {
    BatchOutcome(mode, st, recs);
    if Accepted(mode, st.pk, st.records, recs) {
      KeyUntouched(mode, st, recs, k);
    }
  }
}
