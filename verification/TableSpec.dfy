/** What each table mutation does, as a function from the old table state to the new one. */
module TableSpec {
  import opened Values
  import opened SecondaryIndex

  datatype TableState = TableState(pk: string, records: map<string, Record>, indexes: map<string, Index>)

  datatype ConflictAction = ConflictError | ConflictDoNothing | ConflictDoUpdate

  type MergeFunc = (Value, Value) -> Value

  datatype ConflictOptions =
    ConflictOptions(action: ConflictAction, updateFields: seq<string>, mergeFuncs: map<string, MergeFunc>)

  datatype DbError = NoTable | NoPrimaryKey(row: nat) | Duplicate(row: nat)

  datatype Status = Ok | Failed(error: DbError)

  datatype Outcome = Outcome(state: TableState, status: Status)

  /** How a batch, or a single-record write other than Insert, treats a key that is taken. */
  datatype Mode = Overwrite | Upserting | OnConflict(opts: ConflictOptions)

  datatype Op =
    | Insert(rec: Record)
    | InsertOnConflict(rec: Record, opts: ConflictOptions)
    | Upsert(rec: Record)
    | InsertBatch(recs: seq<Record>)
    | InsertBatchOnConflict(recs: seq<Record>, opts: ConflictOptions)
    | UpsertBatch(recs: seq<Record>)
    | Delete(key: Value)

  function Key(pk: string, rec: Record): string
    requires pk in rec
  {
    Format(rec[pk])
  }

  predicate AllKeyed(pk: string, recs: seq<Record>) {
    forall i :: 0 <= i < |recs| ==> pk in recs[i]
  }

  // ----- the steps on one record -----

  function WithEntries(indexes: map<string, Index>, rec: Record, k: string): map<string, Index> {
    map f | f in indexes :: if f in rec then Add(indexes[f], rec[f], k) else indexes[f]
  }

  function WithoutEntries(indexes: map<string, Index>, rec: Record, k: string): map<string, Index> {
    map f | f in indexes :: if f in rec then Remove(indexes[f], rec[f], k) else indexes[f]
  }

  /** The index of one field after a stored record's value prev gives way to v. */
  function Moved(idx: Index, prev: Value, v: Value, k: string): Index {
    if prev == v then idx else Add(Remove(idx, prev, k), v, k)
  }

  function WithMoves(indexes: map<string, Index>, prev: Record, rec: Record, k: string): map<string, Index> {
    map f | f in indexes :: if f in rec && f in prev then Moved(indexes[f], prev[f], rec[f], k) else indexes[f]
  }

  /** Stores rec under k and adds its index entries, whatever was there before. */
  function Put(st: TableState, k: string, rec: Record): TableState {
    st.(records := st.records[k := rec], indexes := WithEntries(st.indexes, rec, k))
  }

  /** Takes the record under k, and its index entries, out of the table. */
  function Erase(st: TableState, k: string): TableState {
    if k in st.records
    then st.(records := st.records - {k}, indexes := WithoutEntries(st.indexes, st.records[k], k))
    else st
  }

  function Blend(st: TableState, k: string, rec: Record): TableState
    requires k in st.records
  {
    st.(records := st.records[k := st.records[k] + rec],
        indexes := WithMoves(st.indexes, st.records[k], rec, k))
  }

  /** The value a DO UPDATE leaves in field f. */
  function Settled(prev: Record, rec: Record, merges: map<string, MergeFunc>, f: string): Value
    requires f in rec
  {
    if f in merges then merges[f](Lookup(prev, f), rec[f]) else rec[f]
  }

  /** The index of field f after a DO UPDATE: only a merge moves a value the old record lacked. */
  function Resettled(idx: Index, prev: Record, rec: Record, merges: map<string, MergeFunc>, f: string, k: string): Index
    requires f in rec
  {
    if f in merges || f in prev then Moved(idx, Lookup(prev, f), Settled(prev, rec, merges, f), k) else idx
  }

  function UpdateField(st: TableState, k: string, rec: Record, merges: map<string, MergeFunc>, f: string): TableState
    requires k in st.records
  {
    if f !in rec then st else
    var prev := st.records[k];
    st.(records := st.records[k := prev[f := Settled(prev, rec, merges, f)]],
        indexes := if f in st.indexes
                   then st.indexes[f := Resettled(st.indexes[f], prev, rec, merges, f, k)]
                   else st.indexes)
  }

  /** Field after field, in list order; a field listed twice is merged twice. */
  function UpdateFields(st: TableState, k: string, rec: Record, merges: map<string, MergeFunc>, fields: seq<string>)
      : (r: TableState)
    requires k in st.records
    ensures r.pk == st.pk && r.records.Keys == st.records.Keys && r.indexes.Keys == st.indexes.Keys
  {
    if fields == [] then st
    else UpdateField(UpdateFields(st, k, rec, merges, fields[..|fields| - 1]), k, rec, merges, fields[|fields| - 1])
  }

  function SettledRecord(prev: Record, rec: Record, merges: map<string, MergeFunc>, fields: set<string>): Record {
    prev + map f | f in fields && f in rec :: Settled(prev, rec, merges, f)
  }

  function SettledIndexes(indexes: map<string, Index>, prev: Record, rec: Record, merges: map<string, MergeFunc>,
      fields: set<string>, k: string): map<string, Index> {
    map f | f in indexes ::
      if f in fields && f in rec then Resettled(indexes[f], prev, rec, merges, f, k) else indexes[f]
  }

  /** All the fields at once. */
  function UpdateTogether(st: TableState, k: string, rec: Record, merges: map<string, MergeFunc>, fields: set<string>)
      : TableState
    requires k in st.records
  {
    var prev := st.records[k];
    st.(records := st.records[k := SettledRecord(prev, rec, merges, fields)],
        indexes := SettledIndexes(st.indexes, prev, rec, merges, fields, k))
  }

  lemma RecordOneMore(prev: Record, rec: Record, merges: map<string, MergeFunc>, before: set<string>, f: string)
    requires f !in before
    ensures SettledRecord(prev, rec, merges, before + {f})
         == if f in rec then SettledRecord(prev, rec, merges, before)[f := Settled(prev, rec, merges, f)]
            else SettledRecord(prev, rec, merges, before)
    ensures f in SettledRecord(prev, rec, merges, before) <==> f in prev
    ensures Lookup(SettledRecord(prev, rec, merges, before), f) == Lookup(prev, f)
  {
  }

  lemma IndexesOneMore(indexes: map<string, Index>, prev: Record, rec: Record, merges: map<string, MergeFunc>,
      before: set<string>, f: string, k: string)
    requires f !in before
    ensures SettledIndexes(indexes, prev, rec, merges, before + {f}, k)
         == if f in indexes && f in rec
            then SettledIndexes(indexes, prev, rec, merges, before, k)[f := Resettled(indexes[f], prev, rec, merges, f, k)]
            else SettledIndexes(indexes, prev, rec, merges, before, k)
  {
  }

  lemma UpdateOneMore(st: TableState, k: string, rec: Record, merges: map<string, MergeFunc>,
      before: set<string>, f: string)
    requires k in st.records && f !in before
    ensures UpdateField(UpdateTogether(st, k, rec, merges, before), k, rec, merges, f)
         == UpdateTogether(st, k, rec, merges, before + {f})
  {
    var prev := st.records[k];
    var mid := UpdateTogether(st, k, rec, merges, before);
    RecordOneMore(prev, rec, merges, before, f);
    IndexesOneMore(st.indexes, prev, rec, merges, before, f, k);
    if f in rec {
      assert Settled(mid.records[k], rec, merges, f) == Settled(prev, rec, merges, f);
      assert f in st.indexes ==> mid.indexes[f] == st.indexes[f];
      var out, goal := UpdateField(mid, k, rec, merges, f), UpdateTogether(st, k, rec, merges, before + {f});
      assert out.records == goal.records && out.indexes == goal.indexes;
    }
  }

  /** Updating distinct fields one by one, in any order, updates them together. */
  lemma {:induction false} UpdateOrderIrrelevant(st: TableState, k: string, rec: Record,
      merges: map<string, MergeFunc>, fields: seq<string>)
    requires k in st.records && NoDuplicates(fields)
    ensures UpdateFields(st, k, rec, merges, fields)
         == UpdateTogether(st, k, rec, merges, set f | f in fields)
  {
    if fields == [] {
      var same := UpdateTogether(st, k, rec, merges, {});
      assert same.records[k] == st.records[k];
      assert same.records == st.records && same.indexes == st.indexes;
      assert (set f | f in fields) == {};
    } else {
      var front, last := fields[..|fields| - 1], fields[|fields| - 1];
      var before := set f | f in front;
      assert fields == front + [last];
      assert (set f | f in fields) == before + {last};
      UpdateOrderIrrelevant(st, k, rec, merges, front);
      UpdateOneMore(st, k, rec, merges, before, last);
    }
  }

  function Update(st: TableState, k: string, rec: Record, opts: ConflictOptions): TableState
    requires k in st.records
  {
    if opts.updateFields == []
    then UpdateTogether(st, k, rec, opts.mergeFuncs, rec.Keys)
    else UpdateFields(st, k, rec, opts.mergeFuncs, opts.updateFields)
  }

  // ----- one record, then a batch -----

  /** One keyed record written in the given mode.  ConflictError here falls through to storing. */
  function Write(mode: Mode, st: TableState, rec: Record): (r: TableState)
    requires st.pk in rec
    ensures r.pk == st.pk && r.indexes.Keys == st.indexes.Keys
    ensures r.records.Keys == st.records.Keys + {Key(st.pk, rec)}
  {
    var k := Key(st.pk, rec);
    if k !in st.records then Put(st, k, rec)
    else
      match mode
      case Overwrite => Put(Erase(st, k), k, rec)
      case Upserting => Blend(st, k, rec)
      case OnConflict(opts) =>
        match opts.action
        case ConflictError => Put(st, k, rec)
        case ConflictDoNothing => st
        case ConflictDoUpdate => Update(st, k, rec, opts)
  }

  function WriteAll(mode: Mode, st: TableState, recs: seq<Record>): (r: TableState)
    requires AllKeyed(st.pk, recs)
    ensures r.pk == st.pk && r.indexes.Keys == st.indexes.Keys
    ensures st.records.Keys <= r.records.Keys
  {
    if recs == [] then st else Write(mode, WriteAll(mode, st, recs[..|recs| - 1]), recs[|recs| - 1])
  }

  /** The first record without the primary key, or the length of the batch. */
  function FirstUnkeyed(pk: string, recs: seq<Record>): (i: nat)
    ensures i <= |recs|
    ensures forall j :: 0 <= j < i ==> pk in recs[j]
    ensures i < |recs| ==> pk !in recs[i]
  {
    if recs == [] || pk !in recs[0] then 0 else 1 + FirstUnkeyed(pk, recs[1..])
  }

  /** The first record of the batch whose key the table already holds, or the length of the batch. */
  function FirstTaken(st: TableState, recs: seq<Record>): (i: nat)
    requires AllKeyed(st.pk, recs)
    ensures i <= |recs|
    ensures forall j :: 0 <= j < i ==> Key(st.pk, recs[j]) !in st.records
    ensures i < |recs| ==> Key(st.pk, recs[i]) in st.records
  {
    if recs == [] || Key(st.pk, recs[0]) in st.records then 0 else 1 + FirstTaken(st, recs[1..])
  }

  function WriteBatch(mode: Mode, st: TableState, recs: seq<Record>): Outcome {
    var bad := FirstUnkeyed(st.pk, recs);
    if bad < |recs| then Outcome(st, Failed(NoPrimaryKey(bad)))
    else if mode.OnConflict? && mode.opts.action.ConflictError? && FirstTaken(st, recs) < |recs|
    then Outcome(st, Failed(Duplicate(FirstTaken(st, recs))))
    else Outcome(WriteAll(mode, st, recs), Ok)
  }

  function Perform(op: Op, st: TableState): Outcome {
    match op
    case Insert(rec) =>
      if st.pk !in rec then Outcome(st, Failed(NoPrimaryKey(0)))
      else Outcome(Put(st, Key(st.pk, rec), rec), Ok)
    case InsertOnConflict(rec, opts) =>
      if st.pk !in rec then Outcome(st, Failed(NoPrimaryKey(0)))
      else if opts.action.ConflictError? && Key(st.pk, rec) in st.records then Outcome(st, Failed(Duplicate(0)))
      else Outcome(Write(OnConflict(opts), st, rec), Ok)
    case Upsert(rec) =>
      if st.pk !in rec then Outcome(st, Failed(NoPrimaryKey(0)))
      else Outcome(Write(Upserting, st, rec), Ok)
    case InsertBatch(recs) => WriteBatch(Overwrite, st, recs)
    case InsertBatchOnConflict(recs, opts) => WriteBatch(OnConflict(opts), st, recs)
    case UpsertBatch(recs) => WriteBatch(Upserting, st, recs)
    case Delete(key) => Outcome(Erase(st, Format(key)), Ok)
  }

  /** The state after a whole run of operations, failed ones included. */
  function RunOps(ops: seq<Op>, st: TableState): TableState {
    if ops == [] then st else RunOps(ops[1..], Perform(ops[0], st).state)
  }
}
