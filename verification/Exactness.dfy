/** Exactly when a single step keeps exact indexes exact. */
module Exactness {
  import opened Values
  import opened SecondaryIndex
  import opened TableSpec
  import opened Coherence

  // ----- exactly when a single step breaks exactness -----

  lemma InsertOverIndexed(st: TableState, k: string, rec: Record, f: string)
    requires Indexed(true, st) && k in st.records && f in st.indexes && f in st.records[k]
    ensures !Indexed(true, Put(st, k, rec))
  {
    var idx, v := st.indexes[f], st.records[k][f];
    var st' := Put(st, k, rec);
    assert Reflects(true, idx, Column(st.records, f));
    assert Times(idx, v, k) == 1;
    if f in rec {
      AddTimes(idx, rec[f], k, v, k);
      assert k in Column(st'.records, f) && Column(st'.records, f)[k] == rec[f];
    } else {
      assert k !in Column(st'.records, f);
    }
    assert !Reflects(true, st'.indexes[f], Column(st'.records, f));
  }

  lemma InsertOverUnindexed(st: TableState, k: string, rec: Record)
    requires Indexed(true, st) && k in st.records && st.indexes.Keys !! st.records[k].Keys
    ensures Indexed(true, Put(st, k, rec))
  {
    var without := st.(records := st.records - {k});
    forall f | f in without.indexes
      ensures Reflects(true, without.indexes[f], Column(without.records, f))
    {
      assert Column(without.records, f) == Column(st.records, f);
    }
    PutKeeps(true, without, k, rec);
    assert without.records[k := rec] == st.records[k := rec];
  }

  /** Insert keeps exact indexes exact iff it replaces no record that has an indexed field. */
  lemma InsertExactIff(st: TableState, k: string, rec: Record)
    requires Indexed(true, st)
    ensures Indexed(true, Put(st, k, rec)) <==>
            (k in st.records ==> st.indexes.Keys !! st.records[k].Keys)
  {
    if k !in st.records {
      PutKeeps(true, st, k, rec);
    } else if f :| f in st.indexes && f in st.records[k] {
      InsertOverIndexed(st, k, rec, f);
    } else {
      InsertOverUnindexed(st, k, rec);
    }
  }

  /** Upserting over a record keeps exact indexes exact iff it adds no indexed field to it. */
  lemma UpsertExactIff(st: TableState, k: string, rec: Record)
    requires Indexed(true, st) && k in st.records
    ensures Indexed(true, Blend(st, k, rec)) <==>
            forall f :: f in st.indexes && f in rec ==> f in st.records[k]
  {
    var st' := Blend(st, k, rec);
    if f :| f in st.indexes && f in rec && f !in st.records[k] {
      assert k !in Column(st.records, f) && Times(st.indexes[f], rec[f], k) == 0;
      assert st'.indexes[f] == st.indexes[f] && Column(st'.records, f)[k] == rec[f];
      assert Indexed(true, st') ==> Reflects(true, st'.indexes[f], Column(st'.records, f));
    } else {
      BlendKeeps(true, st, k, rec);
    }
  }

  lemma NothingToRemove(idx: Index, v: Value, k: string)
    requires NoEmptyBucket(idx) && Times(idx, v, k) == 0
    ensures Remove(idx, v, k) == idx
  {
    var b := Bucket(idx, v);
    assert k !in b by { assert multiset(b)[k] == 0; }
    DropFirstSkips(b, k, |b|);
    WholePrefix(b);
    ConcatNothing(b, []);
  }

  lemma UpdateFieldColumn(st: TableState, k: string, rec: Record, merges: map<string, MergeFunc>, f: string, g: string)
    requires k in st.records && f in rec
    ensures Column(UpdateField(st, k, rec, merges, f).records, g)
         == if g == f then Column(st.records, f)[k := Settled(st.records[k], rec, merges, f)] else Column(st.records, g)
  {
  }

  lemma UpdateNewField(st: TableState, k: string, rec: Record, merges: map<string, MergeFunc>, f: string)
    requires Indexed(true, st) && k in st.records
    requires f in st.indexes && f in rec && f !in st.records[k]
    ensures Indexed(true, UpdateField(st, k, rec, merges, f)) <==>
            f in merges && Settled(st.records[k], rec, merges, f) != Nil
  {
    var st' := UpdateField(st, k, rec, merges, f);
    forall g | g in st.indexes && g != f
      ensures Reflects(true, st'.indexes[g], Column(st'.records, g))
    {
      UpdateFieldColumn(st, k, rec, merges, f, g);
    }
    UpdateFieldColumn(st, k, rec, merges, f, f);
    NewValueExactIff(st.indexes[f], Column(st.records, f), Settled(st.records[k], rec, merges, f), k, f in merges);
  }

  lemma NewValueExactIff(idx: Index, p: map<string, Value>, v: Value, k: string, merged: bool)
    requires Reflects(true, idx, p) && k !in p
    ensures Reflects(true, if merged then Moved(idx, Nil, v, k) else idx, p[k := v]) <==> merged && v != Nil
  {
    assert Times(idx, v, k) == 0 && Times(idx, Nil, k) == 0;
    if merged && v != Nil {
      NothingToRemove(idx, Nil, k);
      ReflectsAdd(true, idx, p, v, k);
    }
  }

  /**
   * One field of a DO UPDATE keeps exact indexes exact iff the field is not indexed, is not given,
   * was there before, or is merged to something other than Nil.
   */
  lemma UpdateFieldExactIff(st: TableState, k: string, rec: Record, merges: map<string, MergeFunc>, f: string)
    requires Indexed(true, st) && k in st.records
    ensures Indexed(true, UpdateField(st, k, rec, merges, f)) <==>
            (f in st.indexes && f in rec && f !in st.records[k] ==>
               f in merges && Settled(st.records[k], rec, merges, f) != Nil)
  {
    if f in st.indexes && f in rec && f !in st.records[k] {
      UpdateNewField(st, k, rec, merges, f);
    } else {
      UpdateFieldKeeps(true, st, k, rec, merges, f);
    }
  }

  lemma SettledColumn(st: TableState, k: string, rec: Record, merges: map<string, MergeFunc>,
      fields: set<string>, f: string)
    requires k in st.records
    ensures Column(UpdateTogether(st, k, rec, merges, fields).records, f)
         == if f in fields && f in rec then Column(st.records, f)[k := Settled(st.records[k], rec, merges, f)]
            else Column(st.records, f)
  {
  }

  /** The field can be updated without losing the exactness of its index. */
  predicate Resettles(prev: Record, rec: Record, merges: map<string, MergeFunc>, f: string)
    requires f in rec
  {
    f in prev || (f in merges && Settled(prev, rec, merges, f) != Nil)
  }

  /** The index of field f is exact. */
  ghost predicate FieldExact(st: TableState, f: string) {
    f in st.indexes ==> Reflects(true, st.indexes[f], Column(st.records, f))
  }

  lemma FieldTogetherExactIff(st: TableState, k: string, rec: Record, merges: map<string, MergeFunc>,
      fields: set<string>, f: string)
    requires Indexed(true, st) && k in st.records && f in st.indexes
    ensures f in UpdateTogether(st, k, rec, merges, fields).indexes
    ensures FieldExact(UpdateTogether(st, k, rec, merges, fields), f) <==>
            (f in fields && f in rec ==> Resettles(st.records[k], rec, merges, f))
  {
    var prev, p, idx := st.records[k], Column(st.records, f), st.indexes[f];
    SettledColumn(st, k, rec, merges, fields, f);
    assert Reflects(true, idx, p);
    if f in fields && f in rec {
      if f in prev {
        MoveKeeps(true, idx, p, Settled(prev, rec, merges, f), k);
      } else {
        NewValueExactIff(idx, p, Settled(prev, rec, merges, f), k, f in merges);
      }
    }
  }

  /**
   * A DO UPDATE of all the fields given, or of distinct listed fields, keeps exact indexes exact iff
   * every indexed field it is given was there before or is merged to something other than Nil.
   */
  lemma UpdateExactIff(st: TableState, k: string, rec: Record, opts: ConflictOptions)
    requires Indexed(true, st) && k in st.records && NoDuplicates(opts.updateFields)
    ensures Indexed(true, Update(st, k, rec, opts)) <==>
            forall f :: f in st.indexes && f in rec && (opts.updateFields == [] || f in opts.updateFields) ==>
              Resettles(st.records[k], rec, opts.mergeFuncs, f)
  {
    var fields := if opts.updateFields == [] then rec.Keys else set f | f in opts.updateFields;
    UpdateOrderIrrelevant(st, k, rec, opts.mergeFuncs, opts.updateFields);
    var out := UpdateTogether(st, k, rec, opts.mergeFuncs, fields);
    forall f | f in st.indexes
      ensures f in out.indexes
      ensures FieldExact(out, f) <==> (f in fields && f in rec ==> Resettles(st.records[k], rec, opts.mergeFuncs, f))
    {
      FieldTogetherExactIff(st, k, rec, opts.mergeFuncs, fields, f);
    }
  }
}
