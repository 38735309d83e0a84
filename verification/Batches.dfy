/** Batches: exactly when they keep indexes exact, and exactly when they are their single forms. */
module Batches {
  import opened Values
  import opened SecondaryIndex
  import opened TableSpec
  import opened Coherence
  import opened Exactness

  // ----- ConflictError batches -----

  predicate Erring(mode: Mode) {
    mode.OnConflict? && mode.opts.action.ConflictError?
  }

  /** The position of the last record with key k, or -1. */
  function LastAt(pk: string, recs: seq<Record>, k: string): (i: int)
    requires AllKeyed(pk, recs)
    ensures -1 <= i < |recs| && (i >= 0 ==> Key(pk, recs[i]) == k)
    ensures forall j :: i < j < |recs| ==> Key(pk, recs[j]) != k
  {
    if recs == [] then -1
    else if Key(pk, recs[|recs| - 1]) == k then |recs| - 1
    else LastAt(pk, recs[..|recs| - 1], k)
  }

  /** The position of the first record with key k, or -1. */
  function FirstAt(pk: string, recs: seq<Record>, k: string): (i: int)
    requires AllKeyed(pk, recs)
    ensures -1 <= i < |recs| && (i >= 0 ==> Key(pk, recs[i]) == k)
    ensures i >= 0 ==> forall j :: 0 <= j < i ==> Key(pk, recs[j]) != k
    ensures i < 0 ==> forall j :: 0 <= j < |recs| ==> Key(pk, recs[j]) != k
  {
    if recs == [] then -1
    else
      var front := FirstAt(pk, recs[..|recs| - 1], k);
      if front >= 0 then front else if Key(pk, recs[|recs| - 1]) == k then |recs| - 1 else -1
  }

  /** Past its check a ConflictError batch stores every record, whatever was there. */
  lemma ErringPuts(mode: Mode, st: TableState, rec: Record)
    requires Erring(mode) && st.pk in rec
    ensures Write(mode, st, rec) == Put(st, Key(st.pk, rec), rec)
  {
  }

  /** After an accepted ConflictError batch the last record with a key is the one stored. */
  lemma {:induction false} LastIsStored(mode: Mode, st: TableState, recs: seq<Record>, k: string)
    requires Erring(mode) && AllKeyed(st.pk, recs)
    ensures var out, i := WriteAll(mode, st, recs).records, LastAt(st.pk, recs, k);
      && (i >= 0 ==> k in out && out[k] == recs[i])
      && (i < 0 ==> (k in out <==> k in st.records) && (k in out ==> out[k] == st.records[k]))
  {
    if recs != [] {
      LastIsStored(mode, st, recs[..|recs| - 1], k);
      ErringPuts(mode, WriteAll(mode, st, recs[..|recs| - 1]), recs[|recs| - 1]);
    }
  }

  /** How often a batch adds key k to the bucket of v in the index of field f. */
  ghost function Adds(pk: string, recs: seq<Record>, f: string, v: Value, k: string): nat
    requires AllKeyed(pk, recs)
  {
    if recs == [] then 0
    else
      var last := recs[|recs| - 1];
      Adds(pk, recs[..|recs| - 1], f, v, k) + if Key(pk, last) == k && f in last && last[f] == v then 1 else 0
  }

  lemma PutTimes(st: TableState, key: string, rec: Record, f: string, v: Value, k: string)
    requires f in st.indexes
    ensures var out := Put(st, key, rec);
      && f in out.indexes
      && Times(out.indexes[f], v, k) == Times(st.indexes[f], v, k) + if key == k && f in rec && rec[f] == v then 1 else 0
  {
    if f in rec {
      AddTimes(st.indexes[f], rec[f], key, v, k);
    }
  }

  lemma {:induction false} ErrorBatchTimes(mode: Mode, st: TableState, recs: seq<Record>, f: string, v: Value, k: string)
    requires Erring(mode) && AllKeyed(st.pk, recs) && f in st.indexes
    ensures var out := WriteAll(mode, st, recs);
      f in out.indexes && Times(out.indexes[f], v, k) == Times(st.indexes[f], v, k) + Adds(st.pk, recs, f, v, k)
  {
    if recs != [] {
      var front, last := recs[..|recs| - 1], recs[|recs| - 1];
      ErrorBatchTimes(mode, st, front, f, v, k);
      PutTimes(WriteAll(mode, st, front), Key(st.pk, last), last, f, v, k);
    }
  }

  lemma {:induction false} AddsAtLeast(pk: string, recs: seq<Record>, f: string, i: nat)
    requires AllKeyed(pk, recs) && i < |recs| && f in recs[i]
    ensures Adds(pk, recs, f, recs[i][f], Key(pk, recs[i])) >= 1
  {
    if i < |recs| - 1 {
      AddsAtLeast(pk, recs[..|recs| - 1], f, i);
    }
  }

  lemma {:induction false} AddsTwice(pk: string, recs: seq<Record>, f: string, i: nat, j: nat)
    requires AllKeyed(pk, recs) && i < j < |recs| && f in recs[i] && f in recs[j]
    requires Key(pk, recs[i]) == Key(pk, recs[j]) && recs[i][f] == recs[j][f]
    ensures Adds(pk, recs, f, recs[i][f], Key(pk, recs[i])) >= 2
  {
    var front := recs[..|recs| - 1];
    if j < |recs| - 1 {
      AddsTwice(pk, front, f, i, j);
    } else {
      AddsAtLeast(pk, front, f, i);
    }
  }

  /** A key that sits in an index twice, in one bucket or in two, makes the index inexact. */
  lemma TwiceIsInexact(idx: Index, p: map<string, Value>, u: Value, v: Value, k: string)
    requires Times(idx, u, k) >= 1 && Times(idx, v, k) >= 1 && (u == v ==> Times(idx, v, k) >= 2)
    ensures !Reflects(true, idx, p)
  {
    assert Reflects(true, idx, p) ==> Times(idx, u, k) <= 1;
    assert Reflects(true, idx, p) ==> Times(idx, v, k) <= 1;
  }

  /** Two records with one key, both with the indexed field f, leave the index of f inexact. */
  lemma BothAdded(mode: Mode, st: TableState, recs: seq<Record>, f: string, i: nat, j: nat)
    requires Erring(mode) && AllKeyed(st.pk, recs) && f in st.indexes
    requires i < j < |recs| && f in recs[i] && f in recs[j] && Key(st.pk, recs[i]) == Key(st.pk, recs[j])
    ensures !Indexed(true, WriteAll(mode, st, recs))
  {
    var out, k := WriteAll(mode, st, recs), Key(st.pk, recs[i]);
    ErrorBatchTimes(mode, st, recs, f, recs[i][f], k);
    ErrorBatchTimes(mode, st, recs, f, recs[j][f], k);
    AddsAtLeast(st.pk, recs, f, i);
    AddsAtLeast(st.pk, recs, f, j);
    if recs[i][f] == recs[j][f] {
      AddsTwice(st.pk, recs, f, i, j);
    }
    TwiceIsInexact(out.indexes[f], Column(out.records, f), recs[i][f], recs[j][f], k);
  }

  lemma StaleIsInexact(idx: Index, p: map<string, Value>, v: Value, k: string)
    requires Times(idx, v, k) >= 1 && k !in p
    ensures !Reflects(true, idx, p)
  {
    assert Reflects(true, idx, p) ==> Times(idx, v, k) <= 0;
  }

  /** An overwritten record with the indexed field f leaves the index of f inexact. */
  lemma OverwrittenIsInexact(mode: Mode, st: TableState, recs: seq<Record>, f: string, i: nat, j: nat)
    requires Erring(mode) && AllKeyed(st.pk, recs) && f in st.indexes
    requires i < j < |recs| && f in recs[i] && Key(st.pk, recs[i]) == Key(st.pk, recs[j])
    ensures !Indexed(true, WriteAll(mode, st, recs))
  {
    var out, k := WriteAll(mode, st, recs), Key(st.pk, recs[i]);
    var last := LastAt(st.pk, recs, k);
    LastIsStored(mode, st, recs, k);
    if f in recs[last] {
      BothAdded(mode, st, recs, f, i, last);
    } else {
      ErrorBatchTimes(mode, st, recs, f, recs[i][f], k);
      AddsAtLeast(st.pk, recs, f, i);
      StaleIsInexact(out.indexes[f], Column(out.records, f), recs[i][f], k);
    }
  }

  /** Only records without indexed fields are overwritten inside the batch. */
  ghost predicate OverwritesUnindexed(indexed: set<string>, pk: string, recs: seq<Record>)
    requires AllKeyed(pk, recs)
  {
    forall i, j :: 0 <= i < j < |recs| && Key(pk, recs[i]) == Key(pk, recs[j]) ==> indexed !! recs[i].Keys
  }

  lemma {:induction false} StaysExact(mode: Mode, st: TableState, recs: seq<Record>)
    requires Indexed(true, st) && Erring(mode) && AllKeyed(st.pk, recs)
    requires forall i :: 0 <= i < |recs| ==> Key(st.pk, recs[i]) !in st.records
    requires OverwritesUnindexed(st.indexes.Keys, st.pk, recs)
    ensures Indexed(true, WriteAll(mode, st, recs))
  {
    if recs != [] {
      var front, last := recs[..|recs| - 1], recs[|recs| - 1];
      StaysExact(mode, st, front);
      LastIsStored(mode, st, front, Key(st.pk, last));
      InsertExactIff(WriteAll(mode, st, front), Key(st.pk, last), last);
    }
  }

  /**
   * An accepted ConflictError batch keeps exact indexes exact iff the records it overwrites inside
   * itself have no indexed field: its check, against the table alone, does not see them.
   */
  lemma ErrorBatchExactIff(mode: Mode, st: TableState, recs: seq<Record>)
    requires Indexed(true, st) && Erring(mode) && AllKeyed(st.pk, recs) && FirstTaken(st, recs) == |recs|
    ensures Indexed(true, WriteBatch(mode, st, recs).state) <==> OverwritesUnindexed(st.indexes.Keys, st.pk, recs)
  {
    if OverwritesUnindexed(st.indexes.Keys, st.pk, recs) {
      StaysExact(mode, st, recs);
    } else {
      var i, j :| 0 <= i < j < |recs| && Key(st.pk, recs[i]) == Key(st.pk, recs[j]) && !(st.indexes.Keys !! recs[i].Keys);
      var f :| f in st.indexes && f in recs[i];
      OverwrittenIsInexact(mode, st, recs, f, i, j);
    }
  }

  /** A ConflictError batch checks its keys against the table only: it overwrites within itself. */
  lemma ErrorBatchOverwrites(a: Record, b: Record, opts: ConflictOptions, st: TableState)
    requires opts.action.ConflictError? && st.pk in a && st.pk in b
    requires Key(st.pk, a) == Key(st.pk, b) && Key(st.pk, a) !in st.records
    ensures WriteBatch(OnConflict(opts), st, [a, b]).status == Ok
    ensures WriteBatch(OnConflict(opts), st, [a, b]).state.records == st.records[Key(st.pk, a) := b]
    ensures RunOps([InsertOnConflict(a, opts), InsertOnConflict(b, opts)], st).records == st.records[Key(st.pk, a) := a]
    ensures Indexed(true, st) && !(st.indexes.Keys !! a.Keys)
        ==> !Indexed(true, WriteBatch(OnConflict(opts), st, [a, b]).state)
  {
    var k, mode := Key(st.pk, a), OnConflict(opts);
    BothStored(mode, a, b, st);
    FirstStored(a, b, opts, st);
    if Indexed(true, st) {
      PutKeeps(true, st, k, a);
      InsertExactIff(Put(st, k, a), k, b);
    }
  }

  lemma BothStored(mode: Mode, a: Record, b: Record, st: TableState)
    requires Erring(mode) && st.pk in a && st.pk in b
    requires Key(st.pk, a) == Key(st.pk, b) && Key(st.pk, a) !in st.records
    ensures WriteBatch(mode, st, [a, b]) == Outcome(Put(Put(st, Key(st.pk, a), a), Key(st.pk, b), b), Ok)
  {
    var one, both := [a], [a, b];
    assert both[..|both| - 1] == one && one[..|one| - 1] == [];
    assert both[1..] == [b] && [b][1..] == [];
    assert FirstUnkeyed(st.pk, [b]) == 1 && FirstUnkeyed(st.pk, both) == 2;
    assert FirstTaken(st, [b]) == 1 && FirstTaken(st, both) == 2;
    ErringPuts(mode, st, a);
    ErringPuts(mode, Put(st, Key(st.pk, a), a), b);
    assert WriteAll(mode, st, one) == Write(mode, st, a);
    assert WriteAll(mode, st, both) == Write(mode, WriteAll(mode, st, one), b);
  }

  lemma FirstStored(a: Record, b: Record, opts: ConflictOptions, st: TableState)
    requires opts.action.ConflictError? && st.pk in a && st.pk in b
    requires Key(st.pk, a) == Key(st.pk, b) && Key(st.pk, a) !in st.records
    ensures RunOps([InsertOnConflict(a, opts), InsertOnConflict(b, opts)], st) == Put(st, Key(st.pk, a), a)
  {
    var ops := [InsertOnConflict(a, opts), InsertOnConflict(b, opts)];
    assert ops[1..] == [InsertOnConflict(b, opts)] && ops[1..][1..] == [];
    var st1 := Put(st, Key(st.pk, a), a);
    assert RunOps(ops, st) == RunOps(ops[1..], st1) && RunOps(ops[1..], st1) == RunOps([], st1);
  }

  // ----- batches against their single forms -----

  function SingleOp(mode: Mode, rec: Record): Op {
    match mode
    case Overwrite => InsertBatch([rec])
    case Upserting => Upsert(rec)
    case OnConflict(opts) => InsertOnConflict(rec, opts)
  }

  function SingleOps(mode: Mode, recs: seq<Record>): seq<Op> {
    if recs == [] then [] else [SingleOp(mode, recs[0])] + SingleOps(mode, recs[1..])
  }

  lemma {:induction false} WriteAllFromFront(mode: Mode, st: TableState, recs: seq<Record>)
    requires AllKeyed(st.pk, recs) && recs != []
    ensures WriteAll(mode, st, recs) == WriteAll(mode, Write(mode, st, recs[0]), recs[1..])
    decreases |recs|
  {
    if |recs| == 1 {
      assert recs[..0] == [] && recs[1..] == [];
    } else {
      WriteAllFromFront(mode, st, recs[..|recs| - 1]);
      assert recs[1..][..|recs| - 2] == recs[..|recs| - 1][1..];
    }
  }

  lemma ValidIsFold(mode: Mode, st: TableState, rec: Record)
    requires !Erring(mode) && st.pk in rec
    ensures Perform(SingleOp(mode, rec), st).state == Write(mode, st, rec)
  {
    var one := [rec];
    assert one[..|one| - 1] == [] && one[|one| - 1] == rec;
    assert WriteAll(mode, st, one) == Write(mode, WriteAll(mode, st, []), rec);
    assert FirstUnkeyed(st.pk, one) == 1;
  }

  lemma {:induction false} WritesAreFold(mode: Mode, st: TableState, recs: seq<Record>)
    requires !Erring(mode) && AllKeyed(st.pk, recs)
    ensures WriteAll(mode, st, recs) == RunOps(SingleOps(mode, recs), st)
    decreases |recs|
  {
    if recs != [] {
      WriteAllFromFront(mode, st, recs);
      ValidIsFold(mode, st, recs[0]);
      WritesAreFold(mode, Write(mode, st, recs[0]), recs[1..]);
      assert SingleOps(mode, recs)[1..] == SingleOps(mode, recs[1..]);
    }
  }

  /** What single ConflictError inserts leave, one by one: the first record with each key stays. */
  ghost function KeepFirst(st: TableState, recs: seq<Record>): (r: TableState)
    requires AllKeyed(st.pk, recs)
    ensures r.pk == st.pk && r.indexes.Keys == st.indexes.Keys
  {
    if recs == [] then st
    else
      var before, last := KeepFirst(st, recs[..|recs| - 1]), recs[|recs| - 1];
      if Key(st.pk, last) in before.records then before else Put(before, Key(st.pk, last), last)
  }

  lemma {:induction false} KeepFirstFromFront(st: TableState, recs: seq<Record>)
    requires AllKeyed(st.pk, recs) && recs != []
    ensures KeepFirst(st, recs) == KeepFirst(KeepFirst(st, [recs[0]]), recs[1..])
    decreases |recs|
  {
    if |recs| == 1 {
      assert recs == [recs[0]] && recs[1..] == [];
    } else {
      KeepFirstFromFront(st, recs[..|recs| - 1]);
      assert recs[1..][..|recs| - 2] == recs[..|recs| - 1][1..];
    }
  }

  lemma KeepOne(mode: Mode, st: TableState, rec: Record)
    requires Erring(mode) && st.pk in rec
    ensures Perform(SingleOp(mode, rec), st).state == KeepFirst(st, [rec])
  {
    assert [rec][..0] == [];
    assert KeepFirst(st, [rec][..0]) == st;
  }

  lemma {:induction false} SinglesKeepFirst(mode: Mode, st: TableState, recs: seq<Record>)
    requires Erring(mode) && AllKeyed(st.pk, recs)
    ensures RunOps(SingleOps(mode, recs), st) == KeepFirst(st, recs)
    decreases |recs|
  {
    if recs != [] {
      KeepFirstFromFront(st, recs);
      KeepOne(mode, st, recs[0]);
      SinglesKeepFirst(mode, KeepFirst(st, [recs[0]]), recs[1..]);
      assert SingleOps(mode, recs)[1..] == SingleOps(mode, recs[1..]);
    }
  }

  lemma {:induction false} FirstIsKept(st: TableState, recs: seq<Record>, k: string)
    requires AllKeyed(st.pk, recs)
    ensures var out, i := KeepFirst(st, recs).records, FirstAt(st.pk, recs, k);
      && (k in out <==> k in st.records || i >= 0)
      && (k in st.records ==> out[k] == st.records[k])
      && (k !in st.records && i >= 0 ==> out[k] == recs[i])
  {
    if recs != [] {
      FirstIsKept(st, recs[..|recs| - 1], k);
    }
  }

  lemma {:induction false} AllTakenKeeps(st: TableState, recs: seq<Record>)
    requires AllKeyed(st.pk, recs) && forall i :: 0 <= i < |recs| ==> Key(st.pk, recs[i]) in st.records
    ensures KeepFirst(st, recs) == st
  {
    if recs != [] {
      AllTakenKeeps(st, recs[..|recs| - 1]);
    }
  }

  /** Repeating a key adds nothing: no indexed field, and the record stored last is the one stored first. */
  ghost predicate RepeatsHarmless(indexed: set<string>, pk: string, recs: seq<Record>)
    requires AllKeyed(pk, recs)
  {
    && LaterUnindexed(indexed, pk, recs)
    && forall i :: 0 <= i < |recs| ==>
         recs[FirstAt(pk, recs, Key(pk, recs[i]))] == recs[LastAt(pk, recs, Key(pk, recs[i]))]
  }

  ghost predicate LaterUnindexed(indexed: set<string>, pk: string, recs: seq<Record>)
    requires AllKeyed(pk, recs)
  {
    forall i, j :: 0 <= i < j < |recs| && Key(pk, recs[i]) == Key(pk, recs[j]) ==> indexed !! recs[j].Keys
  }

  lemma NoEntries(indexes: map<string, Index>, rec: Record, k: string)
    requires indexes.Keys !! rec.Keys
    ensures WithEntries(indexes, rec, k) == indexes
  {
  }

  lemma RepeatedUnindexed(indexed: set<string>, pk: string, recs: seq<Record>)
    requires AllKeyed(pk, recs) && LaterUnindexed(indexed, pk, recs) && recs != []
    requires FirstAt(pk, recs[..|recs| - 1], Key(pk, recs[|recs| - 1])) >= 0
    ensures indexed !! recs[|recs| - 1].Keys
  {
    var i := FirstAt(pk, recs[..|recs| - 1], Key(pk, recs[|recs| - 1]));
    assert recs[..|recs| - 1][i] == recs[i];
  }

  lemma {:induction false} SameIndexes(mode: Mode, st: TableState, recs: seq<Record>)
    requires Erring(mode) && AllKeyed(st.pk, recs) && LaterUnindexed(st.indexes.Keys, st.pk, recs)
    requires forall i :: 0 <= i < |recs| ==> Key(st.pk, recs[i]) !in st.records
    ensures WriteAll(mode, st, recs).indexes == KeepFirst(st, recs).indexes
  {
    if recs != [] {
      var front, last := recs[..|recs| - 1], recs[|recs| - 1];
      var k := Key(st.pk, last);
      SameIndexes(mode, st, front);
      FirstIsKept(st, front, k);
      ErringPuts(mode, WriteAll(mode, st, front), last);
      if k in KeepFirst(st, front).records {
        RepeatedUnindexed(st.indexes.Keys, st.pk, recs);
        NoEntries(WriteAll(mode, st, front).indexes, last, k);
      }
    }
  }

  lemma SameRecords(mode: Mode, st: TableState, recs: seq<Record>, k: string)
    requires Erring(mode) && AllKeyed(st.pk, recs)
    requires forall i :: 0 <= i < |recs| ==> Key(st.pk, recs[i]) !in st.records
    ensures var a, b := WriteAll(mode, st, recs).records, KeepFirst(st, recs).records;
      && (k in a <==> k in b)
      && (k in a ==> (a[k] == b[k] <==>
           (FirstAt(st.pk, recs, k) >= 0 ==> recs[FirstAt(st.pk, recs, k)] == recs[LastAt(st.pk, recs, k)])))
  {
    LastIsStored(mode, st, recs, k);
    FirstIsKept(st, recs, k);
  }

  /** How often the single forms add key k to the bucket of v in the index of field f. */
  ghost function FirstAdds(pk: string, recs: seq<Record>, f: string, v: Value, k: string): nat
    requires AllKeyed(pk, recs)
  {
    if recs == [] then 0
    else
      var front, last := recs[..|recs| - 1], recs[|recs| - 1];
      FirstAdds(pk, front, f, v, k)
        + if Key(pk, last) == k && FirstAt(pk, front, k) < 0 && f in last && last[f] == v then 1 else 0
  }

  lemma {:induction false} FirstTimes(st: TableState, recs: seq<Record>, f: string, v: Value, k: string)
    requires AllKeyed(st.pk, recs) && f in st.indexes
    requires forall i :: 0 <= i < |recs| ==> Key(st.pk, recs[i]) !in st.records
    ensures Times(KeepFirst(st, recs).indexes[f], v, k) == Times(st.indexes[f], v, k) + FirstAdds(st.pk, recs, f, v, k)
  {
    if recs != [] {
      var front, last := recs[..|recs| - 1], recs[|recs| - 1];
      FirstTimes(st, front, f, v, k);
      FirstIsKept(st, front, Key(st.pk, last));
      PutTimes(KeepFirst(st, front), Key(st.pk, last), last, f, v, k);
    }
  }

  lemma {:induction false} FewerFirst(pk: string, recs: seq<Record>, f: string, i: nat, j: nat)
    requires AllKeyed(pk, recs) && i < j < |recs| && Key(pk, recs[i]) == Key(pk, recs[j]) && f in recs[j]
    ensures FirstAdds(pk, recs, f, recs[j][f], Key(pk, recs[j])) < Adds(pk, recs, f, recs[j][f], Key(pk, recs[j]))
  {
    var front := recs[..|recs| - 1];
    if j < |front| {
      FewerFirst(pk, front, f, i, j);
    } else {
      assert front[i] == recs[i];
      NotMoreFirst(pk, front, f, recs[j][f], Key(pk, recs[j]));
    }
  }

  lemma {:induction false} NotMoreFirst(pk: string, recs: seq<Record>, f: string, v: Value, k: string)
    requires AllKeyed(pk, recs)
    ensures FirstAdds(pk, recs, f, v, k) <= Adds(pk, recs, f, v, k)
  {
    if recs != [] {
      NotMoreFirst(pk, recs[..|recs| - 1], f, v, k);
    }
  }

  lemma RepeatShows(mode: Mode, st: TableState, recs: seq<Record>, i: nat, j: nat)
    requires Erring(mode) && AllKeyed(st.pk, recs)
    requires forall i :: 0 <= i < |recs| ==> Key(st.pk, recs[i]) !in st.records
    requires i < j < |recs| && Key(st.pk, recs[i]) == Key(st.pk, recs[j]) && !(st.indexes.Keys !! recs[j].Keys)
    ensures WriteAll(mode, st, recs).indexes != KeepFirst(st, recs).indexes
  {
    var f :| f in st.indexes && f in recs[j];
    var v, k := recs[j][f], Key(st.pk, recs[j]);
    ErrorBatchTimes(mode, st, recs, f, v, k);
    FirstTimes(st, recs, f, v, k);
    FewerFirst(st.pk, recs, f, i, j);
  }

  lemma HarmlessIsFold(mode: Mode, st: TableState, recs: seq<Record>)
    requires Erring(mode) && AllKeyed(st.pk, recs) && RepeatsHarmless(st.indexes.Keys, st.pk, recs)
    requires forall i :: 0 <= i < |recs| ==> Key(st.pk, recs[i]) !in st.records
    ensures WriteAll(mode, st, recs) == KeepFirst(st, recs)
  {
    var a, b := WriteAll(mode, st, recs), KeepFirst(st, recs);
    SameIndexes(mode, st, recs);
    forall k
      ensures k in a.records.Keys <==> k in b.records.Keys
      ensures k in a.records ==> a.records[k] == b.records[k]
    {
      SameRecords(mode, st, recs, k);
      var i := FirstAt(st.pk, recs, k);
      assert i >= 0 ==> recs[FirstAt(st.pk, recs, Key(st.pk, recs[i]))] == recs[LastAt(st.pk, recs, Key(st.pk, recs[i]))];
    }
    SameMap(a.records, b.records);
  }

  lemma OverwritingShows(mode: Mode, st: TableState, recs: seq<Record>, k: string)
    requires Erring(mode) && AllKeyed(st.pk, recs) && FirstAt(st.pk, recs, k) >= 0
    requires forall i :: 0 <= i < |recs| ==> Key(st.pk, recs[i]) !in st.records
    requires recs[FirstAt(st.pk, recs, k)] != recs[LastAt(st.pk, recs, k)]
    ensures WriteAll(mode, st, recs).records != KeepFirst(st, recs).records
  {
    SameRecords(mode, st, recs, k);
    FirstIsKept(st, recs, k);
    assert WriteAll(mode, st, recs).records[k] != KeepFirst(st, recs).records[k];
  }

  /** An accepted ConflictError batch is its single forms iff its repetitions are harmless. */
  lemma AcceptedIsFoldIff(mode: Mode, st: TableState, recs: seq<Record>)
    requires Erring(mode) && AllKeyed(st.pk, recs)
    requires forall i :: 0 <= i < |recs| ==> Key(st.pk, recs[i]) !in st.records
    ensures WriteAll(mode, st, recs) == KeepFirst(st, recs) <==> RepeatsHarmless(st.indexes.Keys, st.pk, recs)
  {
    if RepeatsHarmless(st.indexes.Keys, st.pk, recs) {
      HarmlessIsFold(mode, st, recs);
    } else if !LaterUnindexed(st.indexes.Keys, st.pk, recs) {
      var i, j :| 0 <= i < j < |recs| && Key(st.pk, recs[i]) == Key(st.pk, recs[j]) && !(st.indexes.Keys !! recs[j].Keys);
      RepeatShows(mode, st, recs, i, j);
    } else {
      var i :| 0 <= i < |recs|
        && recs[FirstAt(st.pk, recs, Key(st.pk, recs[i]))] != recs[LastAt(st.pk, recs, Key(st.pk, recs[i]))];
      OverwritingShows(mode, st, recs, Key(st.pk, recs[i]));
    }
  }

  /** A refused ConflictError batch is its single forms iff every key is taken. */
  lemma RefusedIsFoldIff(st: TableState, recs: seq<Record>)
    requires AllKeyed(st.pk, recs)
    ensures KeepFirst(st, recs) == st <==> forall i :: 0 <= i < |recs| ==> Key(st.pk, recs[i]) in st.records
  {
    if forall i :: 0 <= i < |recs| ==> Key(st.pk, recs[i]) in st.records {
      AllTakenKeeps(st, recs);
    } else {
      var i :| 0 <= i < |recs| && Key(st.pk, recs[i]) !in st.records;
      FirstIsKept(st, recs, Key(st.pk, recs[i]));
    }
  }

  /** A ConflictError batch leaves what its single forms leave. */
  ghost predicate ErrorBatchFolds(st: TableState, recs: seq<Record>)
    requires AllKeyed(st.pk, recs)
  {
    if FirstTaken(st, recs) == |recs| then RepeatsHarmless(st.indexes.Keys, st.pk, recs)
    else forall i :: 0 <= i < |recs| ==> Key(st.pk, recs[i]) in st.records
  }

  /**
   * A valid batch is its records written one call at a time, left to right; an invalid one changes
   * nothing.  A ConflictError batch is that too iff nothing is taken and repetitions are harmless, or
   * everything is taken.
   */
  lemma BatchIsFold(mode: Mode, st: TableState, recs: seq<Record>)
    ensures !AllKeyed(st.pk, recs) ==> WriteBatch(mode, st, recs).state == st
    ensures AllKeyed(st.pk, recs) ==>
      ((WriteBatch(mode, st, recs).state == RunOps(SingleOps(mode, recs), st))
        <==> (Erring(mode) ==> ErrorBatchFolds(st, recs)))
  {
    if AllKeyed(st.pk, recs) {
      if !Erring(mode) {
        WritesAreFold(mode, st, recs);
      } else {
        SinglesKeepFirst(mode, st, recs);
        if FirstTaken(st, recs) == |recs| {
          AcceptedIsFoldIff(mode, st, recs);
        } else {
          RefusedIsFoldIff(st, recs);
        }
      }
    }
  }

  // ----- what one call undoes -----

  /** Deleting a freshly inserted record restores the table, indexes and bucket order included. */
  lemma InsertThenDelete(st: TableState, rec: Record)
    requires Indexed(true, st) && st.pk in rec && Key(st.pk, rec) !in st.records
    ensures RunOps([Insert(rec), Delete(rec[st.pk])], st) == st
  {
    var k, ops := Key(st.pk, rec), [Insert(rec), Delete(rec[st.pk])];
    var st1 := Put(st, k, rec);
    assert ops[1..] == [Delete(rec[st.pk])] && ops[1..][1..] == [];
    assert RunOps(ops, st) == RunOps(ops[1..], st1) && RunOps(ops[1..], st1) == RunOps([], Erase(st1, k));
    forall f | f in st.indexes
      ensures WithoutEntries(st1.indexes, rec, k)[f] == st.indexes[f]
    {
      assert Reflects(true, st.indexes[f], Column(st.records, f));
      if f in rec {
        RemoveUndoesAdd(st.indexes[f], rec[f], k);
      }
    }
    SameMap(WithoutEntries(st1.indexes, rec, k), st.indexes);
    assert st.records[k := rec] - {k} == st.records;
  }
}
