/** The in-memory database: tables mutated in place, their secondary indexes maintained by hand. */
module Database {
  import opened Values
  import opened SecondaryIndex
  import opened TableSpec
  import opened RecordWrites
  import opened Coherence

  /** The listed fields, or all fields of the record in whatever order they come. */
  method FieldsToUpdate(rec: Record, opts: ConflictOptions) returns (fields: seq<string>)
    ensures opts.updateFields != [] ==> fields == opts.updateFields
    ensures opts.updateFields == [] ==> NoDuplicates(fields) && forall f :: f in fields <==> f in rec
  {
    fields := opts.updateFields;
    if |fields| == 0 {
      var todo := rec.Keys;
      while todo != {}
        invariant NoDuplicates(fields) && todo <= rec.Keys
        invariant forall f :: f in fields <==> f in rec && f !in todo
      {
        var f :| f in todo;
        fields := fields + [f];
        todo := todo - {f};
      }
    }
  }

  lemma UpdateByList(st: TableState, k: string, rec: Record, opts: ConflictOptions, fields: seq<string>)
    requires k in st.records
    requires opts.updateFields != [] ==> fields == opts.updateFields
    requires opts.updateFields == [] ==> NoDuplicates(fields) && forall f :: f in fields <==> f in rec
    ensures Update(st, k, rec, opts) == UpdateFields(st, k, rec, opts.mergeFuncs, fields)
  {
    if opts.updateFields == [] {
      assert (set f | f in fields) == rec.Keys;
      UpdateOrderIrrelevant(st, k, rec, opts.mergeFuncs, fields);
    }
  }

  class Table {
    const pk: string
    var records: map<string, Record>
    var indexes: map<string, Index>

    ghost function State(): TableState
      reads this
    {
      TableState(pk, records, indexes)
    }

    constructor (pk: string, indexed: seq<string>)
      ensures this.pk == pk && records == map[] && indexes == map f | f in indexed :: map[]
      ensures Indexed(true, State()) && Full(State()) && SelfKeyed(State())
    {
      this.pk := pk;
      this.records := map[];
      this.indexes := map f | f in indexed :: map[];
    }

    method RemoveFromIndex(field: string, val: Value, k: string)
      requires field in indexes
      modifies this`indexes
      ensures indexes == old(indexes)[field := Remove(old(indexes)[field], val, k)]
    {
      var pks := Bucket(indexes[field], val);
      var i := 0;
      while i < |pks| && pks[i] != k
        invariant i <= |pks| && k !in pks[..i]
      {
        i := i + 1;
      }
      DropFirstSkips(pks, k, i);
      assert pks[i..] == [] || pks[i..][1..] == pks[i + 1..];
      if i < |pks| {
        indexes := indexes[field := indexes[field][val := pks[..i] + pks[i + 1..]]];
      } else {
        assert pks[..i] + [] == pks;
      }
      if Bucket(indexes[field], val) == [] {
        indexes := indexes[field := indexes[field] - {val}];
      }
      assert indexes[field] == Remove(old(indexes)[field], val, k);
    }

    method AppendToIndex(field: string, val: Value, k: string)
      requires field in indexes
      modifies this`indexes
      ensures indexes == old(indexes)[field := Add(old(indexes)[field], val, k)]
    {
      indexes := indexes[field := indexes[field][val := Bucket(indexes[field], val) + [k]]];
    }

    method AddEntries(rec: Record, k: string)
      modifies this`indexes
      ensures indexes == WithEntries(old(indexes), rec, k)
    {
      var todo := indexes.Keys;
      while todo != {}
        invariant todo <= indexes.Keys == old(indexes).Keys
        invariant forall f :: f in indexes ==>
          indexes[f] == (if f in todo then old(indexes)[f] else WithEntries(old(indexes), rec, k)[f])
      {
        var f :| f in todo;
        if f in rec {
          AppendToIndex(f, rec[f], k);
        }
        todo := todo - {f};
      }
    }

    method RemoveEntries(rec: Record, k: string)
      modifies this`indexes
      ensures indexes == WithoutEntries(old(indexes), rec, k)
    {
      var todo := indexes.Keys;
      while todo != {}
        invariant todo <= indexes.Keys == old(indexes).Keys
        invariant forall f :: f in indexes ==>
          indexes[f] == (if f in todo then old(indexes)[f] else WithoutEntries(old(indexes), rec, k)[f])
      {
        var f :| f in todo;
        if f in rec {
          RemoveFromIndex(f, rec[f], k);
        }
        todo := todo - {f};
      }
    }

    method MoveEntries(prev: Record, rec: Record, k: string)
      modifies this`indexes
      ensures indexes == WithMoves(old(indexes), prev, rec, k)
    {
      var todo := indexes.Keys;
      while todo != {}
        invariant todo <= indexes.Keys == old(indexes).Keys
        invariant forall f :: f in indexes ==>
          indexes[f] == (if f in todo then old(indexes)[f] else WithMoves(old(indexes), prev, rec, k)[f])
      {
        var f :| f in todo;
        if f in rec && f in prev && prev[f] != rec[f] {
          RemoveFromIndex(f, prev[f], k);
          AppendToIndex(f, rec[f], k);
        }
        todo := todo - {f};
      }
    }

    method Store(k: string, rec: Record)
      modifies this
      ensures State() == Put(old(State()), k, rec)
    {
      records := records[k := rec];
      AddEntries(rec, k);
    }

    /** One field of a DO UPDATE, with or without a merge function. */
    method UpdateOneField(k: string, rec: Record, merges: map<string, MergeFunc>, field: string)
      requires k in records
      modifies this
      ensures State() == UpdateField(old(State()), k, rec, merges, field)
      ensures records == if field !in rec then old(records) else
        old(records)[k := old(records[k])[field :=
          if field in merges then merges[field](Lookup(old(records[k]), field), rec[field]) else rec[field]]]
    {
      if field !in rec {
        return;
      }
      var existing, newVal := records[k], rec[field];
      if field in merges {
        var finalVal := merges[field](Lookup(existing, field), newVal);
        if field in indexes && Lookup(existing, field) != finalVal {
          RemoveFromIndex(field, Lookup(existing, field), k);
          AppendToIndex(field, finalVal, k);
        }
        records := records[k := existing[field := finalVal]];
      } else {
        if field in indexes && field in existing && existing[field] != newVal {
          RemoveFromIndex(field, existing[field], k);
          AppendToIndex(field, newVal, k);
        }
        records := records[k := existing[field := newVal]];
      }
      assert field in indexes ==> old(indexes)[field := indexes[field]] == indexes;
    }

    /** The DO UPDATE branch: the record under k takes the chosen fields of rec. */
    method UpdateExisting(k: string, rec: Record, opts: ConflictOptions)
      requires k in records
      modifies this
      ensures State() == Update(old(State()), k, rec, opts)
      ensures records.Keys == old(records).Keys && Updates(old(records)[k], rec, opts, records[k])
      ensures forall j :: j in records && j != k ==> records[j] == old(records)[j]
    {
      var fields := FieldsToUpdate(rec, opts);
      ghost var st0 := State();
      for i := 0 to |fields|
        invariant k in records
        invariant State() == UpdateFields(st0, k, rec, opts.mergeFuncs, fields[..i])
      {
        PrefixNext(fields, i);
        UpdateOneField(k, rec, opts.mergeFuncs, fields[i]);
      }
      WholePrefix(fields);
      UpdateByList(st0, k, rec, opts, fields);
      UpdateLeaves(st0, k, rec, opts);
    }

    /** Writes one keyed record over or beside the stored ones. */
    method WriteOne(mode: Mode, rec: Record)
      requires pk in rec
      modifies this
      ensures State() == Write(mode, old(State()), rec)
    {
      var k := Format(rec[pk]);
      if k in records {
        match mode
        case Overwrite =>
          RemoveEntries(records[k], k);
          ghost var erased := Erase(old(State()), k);
          assert erased.records[k := rec] == records[k := rec];
          Store(k, rec);
        case Upserting =>
          MoveEntries(records[k], rec, k);
          records := records[k := records[k] + rec];
        case OnConflict(opts) =>
          match opts.action {
            case ConflictDoNothing =>
            case ConflictDoUpdate => UpdateExisting(k, rec, opts);
            case ConflictError => Store(k, rec);
          }
      } else {
        Store(k, rec);
      }
    }

    /** The first record without the primary key field, or the number of records. */
    method FindUnkeyed(recs: seq<Record>) returns (i: nat)
      ensures i == FirstUnkeyed(pk, recs)
    {
      i := 0;
      while i < |recs| && pk in recs[i]
        invariant i <= |recs| && AllKeyed(pk, recs[..i])
      {
        i := i + 1;
      }
      FirstUnkeyedIs(pk, recs, i);
    }

    /** The first record whose key is already taken, or the number of records. */
    method FindTaken(recs: seq<Record>) returns (i: nat)
      requires AllKeyed(pk, recs)
      ensures i == FirstTaken(State(), recs)
    {
      i := 0;
      while i < |recs| && Format(recs[i][pk]) !in records
        invariant i <= |recs| && forall j :: 0 <= j < i ==> Key(pk, recs[j]) !in records
      {
        i := i + 1;
      }
      FirstTakenIs(State(), recs, i);
    }

    method WriteEach(mode: Mode, recs: seq<Record>)
      requires AllKeyed(pk, recs)
      modifies this
      ensures State() == WriteAll(mode, old(State()), recs)
    {
      for i := 0 to |recs|
        invariant AllKeyed(pk, recs[..i])
        invariant State() == WriteAll(mode, old(State()), recs[..i])
      {
        PrefixNext(recs, i);
        WriteOne(mode, recs[i]);
      }
      WholePrefix(recs);
    }

    /** All records are validated before the first one is written. */
    method RunBatch(mode: Mode, recs: seq<Record>) returns (status: Status)
      modifies this
      ensures Outcome(State(), status) == WriteBatch(mode, old(State()), recs)
    {
      var bad := FindUnkeyed(recs);
      if bad < |recs| {
        return Failed(NoPrimaryKey(bad));
      }
      if mode.OnConflict? && mode.opts.action.ConflictError? {
        var taken := FindTaken(recs);
        if taken < |recs| {
          return Failed(Duplicate(taken));
        }
      }
      WriteEach(mode, recs);
      status := Ok;
    }

    /** One operation under the table lock. */
    method Apply(op: Op) returns (status: Status)
      modifies this
      ensures Outcome(State(), status) == Perform(op, old(State()))
    {
      match op
      case Insert(rec) =>
        if pk !in rec { return Failed(NoPrimaryKey(0)); }
        Store(Format(rec[pk]), rec);
        status := Ok;
      case InsertOnConflict(rec, opts) =>
        if pk !in rec { return Failed(NoPrimaryKey(0)); }
        if Format(rec[pk]) in records && opts.action.ConflictError? { return Failed(Duplicate(0)); }
        WriteOne(OnConflict(opts), rec);
        status := Ok;
      case Upsert(rec) =>
        if pk !in rec { return Failed(NoPrimaryKey(0)); }
        WriteOne(Upserting, rec);
        status := Ok;
      case InsertBatch(recs) => status := RunBatch(Overwrite, recs);
      case InsertBatchOnConflict(recs, opts) => status := RunBatch(OnConflict(opts), recs);
      case UpsertBatch(recs) => status := RunBatch(Upserting, recs);
      case Delete(key) =>
        var k := Format(key);
        if k in records {
          RemoveEntries(records[k], k);
        }
        assert k !in records ==> records - {k} == records;
        records := records - {k};
        status := Ok;
    }
  }

  lemma {:induction false} FirstUnkeyedIs(pk: string, recs: seq<Record>, i: nat)
    requires i <= |recs| && AllKeyed(pk, recs[..i]) && (i < |recs| ==> pk !in recs[i])
    ensures FirstUnkeyed(pk, recs) == i
  {
    assert forall j :: 0 <= j < i ==> recs[..i][j] == recs[j];
  }

  lemma FirstTakenIs(st: TableState, recs: seq<Record>, i: nat)
    requires AllKeyed(st.pk, recs) && i <= |recs| && (i < |recs| ==> Key(st.pk, recs[i]) in st.records)
    requires forall j :: 0 <= j < i ==> Key(st.pk, recs[j]) !in st.records
    ensures FirstTaken(st, recs) == i
  {
  }

  class DB {
    var tables: map<string, Table>

    constructor ()
      ensures tables == map[]
    {
      tables := map[];
    }

    /** Distinct names never share a table. */
    ghost predicate Valid()
      reads this
    {
      forall a, b :: a in tables && b in tables && a != b ==> tables[a] != tables[b]
    }

    /** The contents of the named table. */
    ghost function At(name: string): TableState
      requires name in tables
      reads this, tables.Values
    {
      tables[name].State()
    }

    method CreateTable(name: string, pk: string, indexed: seq<string>) returns (ok: bool)
      requires Valid()
      modifies this
      ensures Valid()
      ensures ok <==> name !in old(tables)
      ensures !ok ==> tables == old(tables)
      ensures ok ==> tables.Keys == old(tables).Keys + {name} && fresh(tables[name])
      ensures ok ==> forall n :: n in old(tables) ==> tables[n] == old(tables)[n]
      ensures ok ==> tables[name].State() == TableState(pk, map[], map f | f in indexed :: map[])
    {
      if name in tables {
        return false;
      }
      var t := new Table(pk, indexed);
      tables := tables[name := t];
      ok := true;
    }

    /** The database entry point of every mutator: look the table up, then run the operation. */
    method Mutate(name: string, op: Op) returns (status: Status)
      modifies if name in tables then {tables[name]} else {}
      ensures name !in tables ==> status == if EmptyBatch(op) then Ok else Failed(NoTable)
      ensures name !in tables ==> (status == Ok <==>
        op == InsertBatch([]) || op == UpsertBatch([]) || (op.InsertBatchOnConflict? && op.recs == []))
      ensures name in tables ==> Outcome(At(name), status) == Perform(op, old(At(name)))
    {
      if EmptyBatch(op) {
        status := Ok;
      } else if name !in tables {
        status := Failed(NoTable);
      } else {
        status := tables[name].Apply(op);
      }
    }
  }

  /** Batches without records return before the table is even looked up. */
  predicate EmptyBatch(op: Op) {
    match op
    case InsertBatch(recs) => recs == []
    case InsertBatchOnConflict(recs, _) => recs == []
    case UpsertBatch(recs) => recs == []
    case _ => false
  }
}
