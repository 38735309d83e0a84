/** Joining two tables: the hash join that runs. */
module Join {
  import opened Values
  import opened Bags
  import opened Database
  import opened Query
  import opened JoinSpec

  lemma InnerLoopAt(plan: Plan, l: Record, right: map<string, Record>, keep: Record -> multiset<Record>, k: string)
    requires plan.leftField in l
    ensures InnerLoop(plan, l, right, keep)(k)
         == if k in KeysWith(right, plan.rightField, l[plan.leftField]) then Then(Row(right), keep)(k) else multiset{}
  {
  }

  /** Merging over the group of partners, in any order, is the inner loop over the whole right table. */
  lemma GroupIsInnerLoop(plan: Plan, l: Record, right: map<string, Record>, keep: Record -> multiset<Record>,
      partners: seq<Record>)
    requires plan.leftField in l
    requires multiset(partners) == RowsAt(right, KeysWith(right, plan.rightField, l[plan.leftField]))
    ensures Gather(partners, keep) == Sum(right.Keys, InnerLoop(plan, l, right, keep))
  {
    var keys, inner := KeysWith(right, plan.rightField, l[plan.leftField]), InnerLoop(plan, l, right, keep);
    forall k
      ensures inner(k) == if k in keys then Then(Row(right), keep)(k) else multiset{}
    {
      InnerLoopAt(plan, l, right, keep, k);
    }
    GatherIsSum(partners, keys, Row(right), keep);
    SumAgrees(keys, Then(Row(right), keep), inner);
    SumIgnores(right.Keys, keys, inner);
  }

  method CopyFields(table: string, rec: Record, into: Record) returns (result: Record)
    ensures result == Prefixed(table, rec, into)
  {
    result := into;
    ghost var copied: Record := map[];
    var todo := rec.Keys;
    while todo != {}
      invariant todo <= rec.Keys && copied.Keys == rec.Keys - todo
      invariant forall k :: k in copied ==> copied[k] == rec[k]
      invariant result == Prefixed(table, copied, into)
    {
      var k :| k in todo;
      ghost var more := copied[k := rec[k]];
      assert more - {k} == copied;
      PrefixedTakes(table, more, into, k);
      result := result[Name(table, k) := rec[k]];
      copied := more;
      todo := todo - {k};
    }
    assert copied == rec;
  }

  method MergeRecords(plan: Plan, l: Record, r: Record) returns (merged: Record)
    ensures merged == Merged(plan, l, r)
  {
    merged := CopyFields(plan.leftTable, l, map[]);
    merged := CopyFields(plan.rightTable, r, merged);
  }

  lemma PartnersByGroup(plan: Plan, l: Record, right: map<string, Record>, rightIndex: map<Value, seq<Record>>)
    requires Groups(rightIndex, right, plan.rightField)
    ensures plan.leftField !in l ==> Partners(plan, l, right) == {}
    ensures plan.leftField in l ==>
      var v := l[plan.leftField];
      && (v in rightIndex <==> Partners(plan, l, right) != {})
      && (v in rightIndex ==> multiset(rightIndex[v]) == RowsAt(right, KeysWith(right, plan.rightField, v)))
  {
    if plan.leftField in l {
      var v := l[plan.leftField];
      assert GroupAt(rightIndex, right, plan.rightField, v);
      assert Partners(plan, l, right) == KeysWith(right, plan.rightField, v);
    }
  }

  class JoinBuilder {
    const db: DB
    var plan: Plan

    constructor (db: DB, leftTable: string, rightTable: string)
      ensures this.db == db && plan == Plan(leftTable, rightTable, "", "", InnerJoin, map[])
    {
      this.db := db;
      this.plan := Plan(leftTable, rightTable, "", "", InnerJoin, map[]);
    }

    method On(leftField: string, rightField: string)
      modifies this`plan
      ensures plan == old(plan).(leftField := leftField, rightField := rightField)
    {
      plan := plan.(leftField := leftField, rightField := rightField);
    }

    method Type(joinType: JoinType)
      modifies this`plan
      ensures plan == old(plan).(joinType := joinType)
    {
      plan := plan.(joinType := joinType);
    }

    method Where(field: string, value: Value)
      modifies this`plan
      ensures plan == old(plan).(filters := old(plan).filters[field := value])
    {
      plan := plan.(filters := plan.filters[field := value]);
    }

    /** The merged record, if it passes the filters. */
    method MergePair(l: Record, r: Record) returns (rows: seq<Record>)
      ensures multiset(rows) == Kept(plan, Merged(plan, l, r)) == KeptMerge(plan, l)(r)
    {
      var merged := MergeRecords(plan, l, r);
      KeptMergeAt(plan, l, r, merged);
      var ok := MatchesFilters(plan.filters, merged);
      rows := if ok then [merged] else [];
    }

    method MergeAll(l: Record, partners: seq<Record>) returns (rows: seq<Record>)
      ensures multiset(rows) == Gather(partners, KeptMerge(plan, l))
    {
      rows := [];
      for i := 0 to |partners|
        invariant multiset(rows) == Gather(partners[..i], KeptMerge(plan, l))
      {
        GatherStep(partners, KeptMerge(plan, l), i);
        var kept := MergePair(l, partners[i]);
        rows := rows + kept;
      }
      WholePrefix(partners);
    }

    /** The result rows of one left row, looked up in the hash table of right rows. */
    method JoinRow(l: Record, rightIndex: map<Value, seq<Record>>, ghost right: map<string, Record>)
        returns (rows: seq<Record>)
      requires Groups(rightIndex, right, plan.rightField)
      ensures multiset(rows) == RowJoin(plan, l, right)
    {
      PartnersByGroup(plan, l, right, rightIndex);
      if plan.leftField !in l || l[plan.leftField] !in rightIndex {
        rows := [];
        if plan.joinType.LeftJoin? {
          rows := MergePair(l, map[]);
        }
      } else {
        rows := MergeAll(l, rightIndex[l[plan.leftField]]);
        GroupIsInnerLoop(plan, l, right, KeptMerge(plan, l), rightIndex[l[plan.leftField]]);
      }
    }

    /** The outer loop over the left rows, after building the hash table of the right ones. */
    method HashJoin(left: map<string, Record>, right: map<string, Record>) returns (results: seq<Record>)
      ensures multiset(results) == NestedLoop(plan, left, right)
    {
      var rightIndex := GroupByScan(right, plan.rightField);
      results := [];
      var todo, done := left.Keys, {};
      while todo != {}
        invariant todo !! done && todo + done == left.Keys
        invariant multiset(results) == Sum(done, LeftRow(plan, left, right))
      {
        var k :| k in todo;
        var rows := JoinRow(left[k], rightIndex, right);
        SumAdds(done, LeftRow(plan, left, right), k);
        results := results + rows;
        todo, done := todo - {k}, done + {k};
      }
      assert done == left.Keys;
    }

    method Execute() returns (r: QueryResult)
      ensures r.Missing? <==> plan.leftTable !in db.tables || plan.rightTable !in db.tables
      ensures r.Found? ==>
        && var left, right := db.tables[plan.leftTable].records, db.tables[plan.rightTable].records;
           multiset(r.rows) == NestedLoop(plan, left, right) && Joined(plan, left, right, multiset(r.rows))
    {
      if plan.leftTable !in db.tables || plan.rightTable !in db.tables {
        return Missing;
      }
      var left, right := db.tables[plan.leftTable].records, db.tables[plan.rightTable].records;
      var results := HashJoin(left, right);
      NestedLoopJoins(plan, left, right);
      r := Found(results);
    }
  }
}
