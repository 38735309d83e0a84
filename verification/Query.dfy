/** Reading tables: filtered selection, grouping and joins, with and without an index. */
module Query {
  import opened Values
  import opened Bags
  import opened SecondaryIndex
  import opened TableSpec
  import opened Coherence
  import opened Database

  // ----- specification -----

  ghost predicate Matches(filters: map<string, Value>, rec: Record) {
    forall f :: f in filters ==> f in rec && rec[f] == filters[f]
  }

  /** The record under a key, as a total function. */
  ghost function Row(records: map<string, Record>): string -> Record {
    k => if k in records then records[k] else map[]
  }

  ghost function RowsAt(records: map<string, Record>, keys: set<string>): multiset<Record> {
    Sum(keys, Each(Row(records)))
  }

  ghost function MatchingKeys(records: map<string, Record>, filters: map<string, Value>): set<string> {
    set k | k in records && Matches(filters, records[k])
  }

  /** The full scan: every record that satisfies the filters, once. */
  ghost function Selection(records: map<string, Record>, filters: map<string, Value>): multiset<Record> {
    RowsAt(records, MatchingKeys(records, filters))
  }

  ghost function KeysWith(records: map<string, Record>, field: string, v: Value): set<string> {
    set k | k in records && field in records[k] && records[k][field] == v
  }

  ghost predicate GroupAt(groups: map<Value, seq<Record>>, records: map<string, Record>, field: string, v: Value) {
    && (v in groups <==> KeysWith(records, field, v) != {})
    && (v in groups ==> multiset(groups[v]) == RowsAt(records, KeysWith(records, field, v)))
  }

  /** groups maps exactly the values that occur in the field to the records that have them. */
  ghost predicate Groups(groups: map<Value, seq<Record>>, records: map<string, Record>, field: string) {
    forall v :: GroupAt(groups, records, field, v)
  }

  /** The records met when walking over keys pks, in order, keeping those that exist and match. */
  ghost function Walk(records: map<string, Record>, filters: map<string, Value>, pks: seq<string>): seq<Record> {
    if pks == [] then [] else
    var k := pks[|pks| - 1];
    Walk(records, filters, pks[..|pks| - 1])
      + if k in records && Matches(filters, records[k]) then [records[k]] else []
  }

  ghost function Hits(records: map<string, Record>, filters: map<string, Value>, pks: seq<string>): set<string> {
    set k | k in pks && k in records && Matches(filters, records[k])
  }

  lemma HitsNext(records: map<string, Record>, filters: map<string, Value>, front: seq<string>, k: string)
    ensures Hits(records, filters, front + [k])
         == Hits(records, filters, front) + if k in records && Matches(filters, records[k]) then {k} else {}
  {
  }

  lemma {:induction false} WalkBag(records: map<string, Record>, filters: map<string, Value>, pks: seq<string>)
    requires NoDuplicates(pks)
    ensures multiset(Walk(records, filters, pks)) == RowsAt(records, Hits(records, filters, pks))
  {
    if pks != [] {
      var front, k := pks[..|pks| - 1], pks[|pks| - 1];
      WalkBag(records, filters, front);
      assert pks == front + [k] && k !in front;
      var before := Hits(records, filters, front);
      HitsNext(records, filters, front, k);
      if k in records && Matches(filters, records[k]) {
        SumAdds(before, Each(Row(records)), k);
      } else {
        assert before + {} == before;
      }
    }
  }

  lemma {:induction false} WalkSet(records: map<string, Record>, filters: map<string, Value>, pks: seq<string>, r: Record)
    ensures r in Walk(records, filters, pks)
        <==> exists k :: k in pks && k in MatchingKeys(records, filters) && records[k] == r
  {
    if pks != [] {
      var front, k := pks[..|pks| - 1], pks[|pks| - 1];
      WalkSet(records, filters, front, r);
      assert pks == front + [k];
    }
  }

  lemma SelectionSet(records: map<string, Record>, filters: map<string, Value>, r: Record)
    ensures r in Selection(records, filters)
        <==> exists k :: k in MatchingKeys(records, filters) && records[k] == r
  {
    SumContains(MatchingKeys(records, filters), Each(Row(records)), r);
  }

  /** The keys under which a record is stored. */
  ghost function StoredUnder(records: map<string, Record>, row: Record): set<string> {
    set k | k in records && records[k] == row
  }

  /** Every row is a stored record that has every filter field with the given value. */
  ghost predicate OnlyPassing(rows: seq<Record>, records: map<string, Record>, filters: map<string, Value>) {
    forall row :: row in rows ==>
      StoredUnder(records, row) != {} && forall f :: f in filters ==> f in row && row[f] == filters[f]
  }

  /** Every stored record that has them is a row, as often as it is stored. */
  ghost predicate AllPassing(rows: seq<Record>, records: map<string, Record>, filters: map<string, Value>) {
    forall k :: k in records && (forall f :: f in filters ==> f in records[k] && records[k][f] == filters[f]) ==>
      multiset(rows)[records[k]] == |StoredUnder(records, records[k])|
  }

  /** A record is selected iff it has every filter field with the given value, as often as it is stored. */
  lemma SelectionIs(records: map<string, Record>, filters: map<string, Value>, row: Record)
    ensures Selection(records, filters)[row]
         == if forall f :: f in filters ==> f in row && row[f] == filters[f] then |StoredUnder(records, row)| else 0
  {
    MatchingCounts(records, filters, row);
  }

  lemma MatchingCounts(records: map<string, Record>, filters: map<string, Value>, row: Record)
    ensures Selection(records, filters)[row] == if Matches(filters, row) then |StoredUnder(records, row)| else 0
  {
    EachOccurs(MatchingKeys(records, filters), Row(records), row);
    MatchingUnder(records, filters, row);
  }

  lemma MatchingUnder(records: map<string, Record>, filters: map<string, Value>, row: Record)
    ensures Bringing(MatchingKeys(records, filters), Row(records), row)
         == if Matches(filters, row) then StoredUnder(records, row) else {}
  {
  }

  lemma RowsSelected(rows: seq<Record>, records: map<string, Record>, filters: map<string, Value>)
    ensures (forall row :: row in rows ==> row in Selection(records, filters)) ==> OnlyPassing(rows, records, filters)
    ensures multiset(rows) == Selection(records, filters) ==> AllPassing(rows, records, filters)
  {
    forall row
      ensures row in Selection(records, filters) ==> StoredUnder(records, row) != {}
      ensures row in Selection(records, filters) ==> forall f :: f in filters ==> f in row && row[f] == filters[f]
    {
      SelectionIs(records, filters, row);
    }
    forall k | k in records && (forall f :: f in filters ==> f in records[k] && records[k][f] == filters[f])
      ensures Selection(records, filters)[records[k]] == |StoredUnder(records, records[k])|
    {
      SelectionIs(records, filters, records[k]);
    }
  }

  lemma OccursOnce(s: seq<string>)
    requires forall k :: multiset(s)[k] <= 1
    ensures NoDuplicates(s)
  {
    forall i, j | 0 <= i < j < |s|
      ensures s[i] != s[j]
    {
      assert s == s[..j] + s[j..];
      assert s[i] in s[..j] && s[j] in s[j..];
      assert multiset(s)[s[i]] == multiset(s[..j])[s[i]] + multiset(s[j..])[s[i]];
    }
  }

  lemma InBucket(idx: Index, v: Value, k: string)
    ensures k in Bucket(idx, v) <==> Times(idx, v, k) > 0
  {
    assert k in Bucket(idx, v) <==> k in multiset(Bucket(idx, v));
  }

  /** The bucket of an exact index lists, without repetition, the keys that hold the value. */
  lemma BucketIsColumn(st: TableState, f: string, v: Value)
    requires f in st.indexes && Indexed(true, st)
    ensures NoDuplicates(Bucket(st.indexes[f], v))
    ensures forall k :: k in Bucket(st.indexes[f], v) <==> k in KeysWith(st.records, f, v)
    ensures v in st.indexes[f] <==> KeysWith(st.records, f, v) != {}
  {
    var idx := st.indexes[f];
    assert Reflects(true, idx, Column(st.records, f));
    forall k
      ensures multiset(Bucket(idx, v))[k] <= 1
      ensures k in Bucket(idx, v) <==> k in KeysWith(st.records, f, v)
    {
      InBucket(idx, v, k);
      assert Times(idx, v, k) <= 1;
    }
    OccursOnce(Bucket(idx, v));
    if v in idx {
      assert idx[v][0] in Bucket(idx, v);
    }
  }

  /** Whichever indexed filter is picked, its exact bucket yields what the full scan yields. */
  lemma CandidatesExact(st: TableState, filters: map<string, Value>, f: string)
    requires Indexed(true, st) && f in st.indexes && f in filters
    ensures multiset(Walk(st.records, filters, Bucket(st.indexes[f], filters[f]))) == Selection(st.records, filters)
  {
    var pks := Bucket(st.indexes[f], filters[f]);
    BucketIsColumn(st, f, filters[f]);
    WalkBag(st.records, filters, pks);
    assert Hits(st.records, filters, pks) == MatchingKeys(st.records, filters);
  }

  /** An index that merely misses no record still yields the right records, perhaps repeatedly. */
  lemma CandidatesComplete(st: TableState, filters: map<string, Value>, f: string, r: Record)
    requires Indexed(false, st) && f in st.indexes && f in filters
    ensures r in Walk(st.records, filters, Bucket(st.indexes[f], filters[f])) <==> r in Selection(st.records, filters)
  {
    var idx, v := st.indexes[f], filters[f];
    WalkSet(st.records, filters, Bucket(idx, v), r);
    SelectionSet(st.records, filters, r);
    assert Reflects(false, idx, Column(st.records, f));
    forall k | k in MatchingKeys(st.records, filters)
      ensures k in Bucket(idx, v)
    {
      InBucket(idx, v, k);
      assert Column(st.records, f)[k] == v;
    }
  }

  lemma ScanExact(records: map<string, Record>, filters: map<string, Value>, order: seq<string>)
    requires NoDuplicates(order) && forall k :: k in order <==> k in records
    ensures multiset(Walk(records, filters, order)) == Selection(records, filters)
  {
    WalkBag(records, filters, order);
    assert Hits(records, filters, order) == MatchingKeys(records, filters);
  }

  ghost function RowsWith(records: map<string, Record>, field: string): Value -> multiset<Record> {
    v => RowsAt(records, KeysWith(records, field, v))
  }

  ghost function FieldOf(records: map<string, Record>, field: string): string -> Value {
    k => if k in records then Lookup(records[k], field) else Nil
  }

  ghost function Having(records: map<string, Record>, field: string): set<string> {
    set k | k in records && field in records[k]
  }

  lemma HavingIsGrouped(groups: map<Value, seq<Record>>, records: map<string, Record>, field: string)
    requires Groups(groups, records, field)
    ensures Bags.Grouped(Having(records, field), FieldOf(records, field), groups.Keys) == Having(records, field)
  {
    forall k | k in Having(records, field)
      ensures FieldOf(records, field)(k) in groups
    {
      var v := FieldOf(records, field)(k);
      assert k in KeysWith(records, field, v);
      assert GroupAt(groups, records, field, v);
    }
  }

  lemma ByGroupIsRowsWith(records: map<string, Record>, field: string, v: Value)
    ensures ByGroup(Having(records, field), FieldOf(records, field), Each(Row(records)))(v)
         == RowsWith(records, field)(v)
  {
    assert Group(Having(records, field), FieldOf(records, field), v) == KeysWith(records, field, v);
  }

  /** Grouping splits the records that have the field: no record is lost or repeated. */
  lemma GroupsPartition(groups: map<Value, seq<Record>>, records: map<string, Record>, field: string)
    requires Groups(groups, records, field)
    ensures Sum(groups.Keys, RowsWith(records, field)) == RowsAt(records, Having(records, field))
  {
    var byGroup := ByGroup(Having(records, field), FieldOf(records, field), Each(Row(records)));
    assert Sum(groups.Keys, byGroup) == RowsAt(records, Having(records, field)) by {
      SumByGroup(groups.Keys, Having(records, field), FieldOf(records, field), Each(Row(records)));
      HavingIsGrouped(groups, records, field);
    }
    assert Sum(groups.Keys, byGroup) == Sum(groups.Keys, RowsWith(records, field)) by {
      forall v | v in groups.Keys
        ensures byGroup(v) == RowsWith(records, field)(v)
      {
        ByGroupIsRowsWith(records, field, v);
      }
      SumAgrees(groups.Keys, byGroup, RowsWith(records, field));
    }
  }

  lemma NoEmptyGroup(groups: map<Value, seq<Record>>, records: map<string, Record>, field: string, v: Value)
    requires Groups(groups, records, field) && v in groups
    ensures |groups[v]| == |KeysWith(records, field, v)| > 0
  {
    assert GroupAt(groups, records, field, v);
    SumCounts(KeysWith(records, field, v), Each(Row(records)));
    assert |groups[v]| == |multiset(groups[v])|;
  }

  // ----- queries -----

  method MatchesFilters(filters: map<string, Value>, rec: Record) returns (ok: bool)
    ensures ok <==> Matches(filters, rec)
  {
    var todo := filters.Keys;
    while todo != {}
      invariant todo <= filters.Keys
      invariant forall f :: f in filters && f !in todo ==> f in rec && rec[f] == filters[f]
    {
      var f :| f in todo;
      if f !in rec || rec[f] != filters[f] {
        return false;
      }
      todo := todo - {f};
    }
    ok := true;
  }

  /** Walks over a list of candidate keys. */
  method Visit(records: map<string, Record>, filters: map<string, Value>, pks: seq<string>) returns (results: seq<Record>)
    ensures results == Walk(records, filters, pks)
  {
    results := [];
    for i := 0 to |pks|
      invariant results == Walk(records, filters, pks[..i])
    {
      PrefixNext(pks, i);
      if pks[i] in records {
        var ok := MatchesFilters(filters, records[pks[i]]);
        if ok {
          results := results + [records[pks[i]]];
        }
      }
    }
    WholePrefix(pks);
  }

  /** The fallback: walks over all records, in whatever order they come. */
  method Scan(records: map<string, Record>, filters: map<string, Value>) returns (results: seq<Record>)
    ensures multiset(results) == Selection(records, filters)
  {
    results := [];
    ghost var order: seq<string> := [];
    var todo := records.Keys;
    while todo != {}
      invariant todo <= records.Keys && NoDuplicates(order)
      invariant forall k :: k in order <==> k in records && k !in todo
      invariant results == Walk(records, filters, order)
    {
      var k :| k in todo;
      assert (order + [k])[..|order|] == order;
      var ok := MatchesFilters(filters, records[k]);
      if ok {
        results := results + [records[k]];
      }
      order := order + [k];
      todo := todo - {k};
    }
    ScanExact(records, filters, order);
  }

  datatype QueryResult = Found(rows: seq<Record>) | Missing

  class QueryBuilder {
    const db: DB
    const tableName: string
    var filters: map<string, Value>
    var limit: int

    constructor (db: DB, tableName: string)
      ensures this.db == db && this.tableName == tableName && filters == map[] && limit == 0
    {
      this.db := db;
      this.tableName := tableName;
      this.filters := map[];
      this.limit := 0;
    }

    method Where(field: string, value: Value)
      modifies this`filters
      ensures filters == old(filters)[field := value]
    {
      filters := filters[field := value];
    }

    method Limit(n: int)
      modifies this`limit
      ensures limit == n
    {
      limit := n;
    }

    /** The bucket of whichever indexed filter comes first, or None when no filter is indexed. */
    method IndexCandidates(t: Table) returns (candidates: Option<seq<string>>)
      ensures candidates.Some? ==>
        exists f :: f in filters && f in t.indexes && candidates.value == Bucket(t.indexes[f], filters[f])
      ensures candidates.None? <==> filters.Keys !! t.indexes.Keys
    {
      var todo := filters.Keys;
      while todo != {}
        invariant todo <= filters.Keys && filters.Keys - todo !! t.indexes.Keys
      {
        var f :| f in todo;
        if f in t.indexes {
          return Some(Bucket(t.indexes[f], filters[f]));
        }
        todo := todo - {f};
      }
      candidates := None;
    }

    /** The matching records before any limit is applied. */
    method Select(t: Table) returns (results: seq<Record>)
      ensures forall row :: row in results ==> row in Selection(t.records, filters)
      ensures Indexed(true, t.State()) ==> multiset(results) == Selection(t.records, filters)
      ensures Indexed(false, t.State()) ==> forall row :: row in Selection(t.records, filters) ==> row in results
    {
      var candidates := IndexCandidates(t);
      ghost var all := Selection(t.records, filters);
      if candidates.Some? {
        results := Visit(t.records, filters, candidates.value);
        ghost var f :| f in filters && f in t.indexes && candidates.value == Bucket(t.indexes[f], filters[f]);
        if Indexed(true, t.State()) { CandidatesExact(t.State(), filters, f); }
        forall row | Indexed(false, t.State())
          ensures row in results <==> row in all
        {
          CandidatesComplete(t.State(), filters, f, row);
        }
        forall row | row in results
          ensures row in all
        {
          WalkSet(t.records, filters, candidates.value, row);
          SelectionSet(t.records, filters, row);
        }
      } else {
        results := Scan(t.records, filters);
        assert forall row :: row in results <==> row in multiset(results);
      }
    }

    /**
     * With exact indexes: the full scan's bag, cut to the limit.  With indexes that merely miss
     * nothing: the right records, possibly repeated.  With any indexes: no wrong record.
     */
    method Execute() returns (r: QueryResult)
      ensures r.Missing? <==> tableName !in db.tables
      ensures r.Found? && limit > 0 ==> |r.rows| <= limit
      ensures r.Found? ==> forall row :: row in r.rows ==> row in Selection(db.tables[tableName].records, filters)
      ensures r.Found? && Indexed(true, db.tables[tableName].State()) ==>
        Limited(r.rows, Selection(db.tables[tableName].records, filters), limit)
      ensures r.Found? && limit <= 0 && Indexed(false, db.tables[tableName].State()) ==>
        forall row :: row in Selection(db.tables[tableName].records, filters) ==> row in r.rows
      ensures r.Found? ==> OnlyPassing(r.rows, db.tables[tableName].records, filters)
      ensures r.Found? && limit <= 0 && Indexed(true, db.tables[tableName].State()) ==>
        AllPassing(r.rows, db.tables[tableName].records, filters)
    {
      if tableName !in db.tables {
        return Missing;
      }
      var results := Select(db.tables[tableName]);
      ghost var rows := results;
      if limit > 0 && |results| > limit {
        results := results[..limit];
        assert rows == results + rows[limit..];
      }
      RowsSelected(results, db.tables[tableName].records, filters);
      r := Found(results);
    }
  }

  /** At most limit rows of the bag, all of them when there is no limit. */
  ghost predicate Limited(rows: seq<Record>, all: multiset<Record>, limit: int) {
    && multiset(rows) <= all
    && |rows| == (if 0 < limit < |all| then limit else |all|)
    && (limit <= 0 ==> multiset(rows) == all)
  }

  // ----- grouping -----

  datatype GroupResult = Grouped(groups: map<Value, seq<Record>>) | NoSuchTable

  /** Collects records by field value in one pass over the table. */
  method GroupByScan(records: map<string, Record>, field: string) returns (groups: map<Value, seq<Record>>)
    ensures Groups(groups, records, field)
  {
    groups := map[];
    var todo := records.Keys;
    ghost var seen: map<string, Record> := map[];
    while todo != {}
      invariant todo <= records.Keys && seen == map k | k in records && k !in todo :: records[k]
      invariant Groups(groups, seen, field)
    {
      var k :| k in todo;
      var rec := records[k];
      GroupGrows(groups, seen, field, k, rec);
      if field in rec {
        groups := groups[rec[field] := (if rec[field] in groups then groups[rec[field]] else []) + [rec]];
      }
      seen := seen[k := rec];
      todo := todo - {k};
    }
    assert seen == records;
  }

  lemma RowsAtExtends(seen: map<string, Record>, keys: set<string>, k: string, rec: Record)
    requires k !in seen && keys <= seen.Keys
    ensures RowsAt(seen[k := rec], keys) == RowsAt(seen, keys)
    ensures RowsAt(seen[k := rec], keys + {k}) == RowsAt(seen, keys) + multiset{rec}
  {
    SumAgrees(keys, Each(Row(seen[k := rec])), Each(Row(seen)));
    SumAdds(keys, Each(Row(seen[k := rec])), k);
  }

  lemma KeysWithGrows(seen: map<string, Record>, field: string, k: string, rec: Record, v: Value)
    requires k !in seen
    ensures KeysWith(seen[k := rec], field, v)
         == KeysWith(seen, field, v) + if field in rec && rec[field] == v then {k} else {}
  {
  }

  function WithGroup(groups: map<Value, seq<Record>>, field: string, rec: Record): map<Value, seq<Record>> {
    if field in rec
    then groups[rec[field] := (if rec[field] in groups then groups[rec[field]] else []) + [rec]]
    else groups
  }

  lemma GroupGrows(groups: map<Value, seq<Record>>, seen: map<string, Record>, field: string, k: string, rec: Record)
    requires Groups(groups, seen, field) && k !in seen
    ensures Groups(WithGroup(groups, field, rec), seen[k := rec], field)
  {
    var groups', seen' := WithGroup(groups, field, rec), seen[k := rec];
    forall v
      ensures GroupAt(groups', seen', field, v)
    {
      assert GroupAt(groups, seen, field, v);
      if field in rec && rec[field] == v {
        GroupGains(groups, seen, field, k, rec);
      } else {
        GroupStays(groups, seen, field, k, rec, v);
      }
    }
  }

  /** The group of the new record's value gains the record. */
  lemma GroupGains(groups: map<Value, seq<Record>>, seen: map<string, Record>, field: string, k: string, rec: Record)
    requires k !in seen && field in rec && GroupAt(groups, seen, field, rec[field])
    ensures GroupAt(WithGroup(groups, field, rec), seen[k := rec], field, rec[field])
  {
    var v, keys := rec[field], KeysWith(seen, field, rec[field]);
    KeysWithGrows(seen, field, k, rec, v);
    RowsAtExtends(seen, keys, k, rec);
    assert k in keys + {k};
    assert keys == {} ==> RowsAt(seen, keys) == multiset{};
  }

  lemma GroupStays(groups: map<Value, seq<Record>>, seen: map<string, Record>, field: string, k: string, rec: Record,
      v: Value)
    requires k !in seen && GroupAt(groups, seen, field, v) && (field in rec ==> rec[field] != v)
    ensures GroupAt(WithGroup(groups, field, rec), seen[k := rec], field, v)
  {
    var keys := KeysWith(seen, field, v);
    KeysWithGrows(seen, field, k, rec, v);
    RowsAtExtends(seen, keys, k, rec);
    assert keys + {} == keys;
  }

  /** Reads the groups off an exact index. */
  method GroupByIndex(t: Table, field: string) returns (groups: map<Value, seq<Record>>)
    requires field in t.indexes
    ensures Indexed(true, t.State()) ==> Groups(groups, t.records, field)
  {
    var idx := t.indexes[field];
    groups := map[];
    var todo := idx.Keys;
    while todo != {}
      invariant todo <= idx.Keys && groups.Keys <= idx.Keys - todo
      invariant forall v :: v in idx && v !in todo ==>
        if v in groups then groups[v] == Walk(t.records, map[], idx[v]) else Walk(t.records, map[], idx[v]) == []
    {
      var v :| v in todo;
      var rows := Visit(t.records, map[], idx[v]);
      if |rows| > 0 {
        groups := groups[v := rows];
      }
      todo := todo - {v};
    }
    if Indexed(true, t.State()) {
      forall v
        ensures GroupAt(groups, t.records, field, v)
      {
        BucketRows(t.State(), field, v);
      }
    }
  }

  lemma BucketRows(st: TableState, f: string, v: Value)
    requires f in st.indexes && Indexed(true, st)
    ensures v in st.indexes[f] <==> KeysWith(st.records, f, v) != {}
    ensures v in st.indexes[f] ==>
      && multiset(Walk(st.records, map[], st.indexes[f][v])) == RowsAt(st.records, KeysWith(st.records, f, v))
      && Walk(st.records, map[], st.indexes[f][v]) != []
  {
    var pks, keys := Bucket(st.indexes[f], v), KeysWith(st.records, f, v);
    BucketIsColumn(st, f, v);
    WalkBag(st.records, map[], pks);
    assert Hits(st.records, map[], pks) == keys;
    SumCounts(keys, Each(Row(st.records)));
  }

  method AllGroupedBy(db: DB, tableName: string, field: string) returns (r: GroupResult)
    ensures r.NoSuchTable? <==> tableName !in db.tables
    ensures r.Grouped? && (field in db.tables[tableName].indexes ==> Indexed(true, db.tables[tableName].State()))
      ==> Groups(r.groups, db.tables[tableName].records, field)
  {
    if tableName !in db.tables {
      return NoSuchTable;
    }
    var t := db.tables[tableName];
    var groups: map<Value, seq<Record>>;
    if field in t.indexes {
      groups := GroupByIndex(t, field);
    } else {
      groups := GroupByScan(t.records, field);
    }
    r := Grouped(groups);
  }

  /** Two groupings of the same table agree, so the index and the fallback cannot be told apart. */
  lemma GroupsUnique(a: map<Value, seq<Record>>, b: map<Value, seq<Record>>, records: map<string, Record>, field: string)
    requires Groups(a, records, field) && Groups(b, records, field)
    ensures a.Keys == b.Keys && forall v :: v in a ==> multiset(a[v]) == multiset(b[v])
  {
    forall v
      ensures v in a <==> v in b
      ensures v in a ==> multiset(a[v]) == multiset(b[v])
    {
      assert GroupAt(a, records, field, v) && GroupAt(b, records, field, v);
    }
  }
}
