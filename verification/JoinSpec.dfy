/** What a join of two tables is: a nested loop, and the pairs of rows it stands for. */
module JoinSpec {
  import opened Values
  import opened Bags
  import opened Query

  datatype JoinType = InnerJoin | LeftJoin

  datatype Plan = Plan(
    leftTable: string, rightTable: string,
    leftField: string, rightField: string,
    joinType: JoinType, filters: map<string, Value>)

  // ----- specification -----

  function Name(table: string, field: string): string {
    table + "." + field
  }

  /** The record into, with the fields of rec added under the table name and a dot. */
  ghost function Prefixed(table: string, rec: Record, into: Record): Record
    decreases |rec|
  {
    if rec == map[] then into
    else
      var k :| k in rec;
      Prefixed(table, rec - {k}, into)[Name(table, k) := rec[k]]
  }

  /** The fields of a record may be copied in any order: prefixed names never coincide. */
  lemma {:induction false} PrefixedTakes(table: string, rec: Record, into: Record, k: string)
    requires k in rec
    ensures Prefixed(table, rec, into) == Prefixed(table, rec - {k}, into)[Name(table, k) := rec[k]]
    decreases |rec|
  {
    var j :| j in rec && Prefixed(table, rec, into) == Prefixed(table, rec - {j}, into)[Name(table, j) := rec[j]];
    if j != k {
      PrefixedTakes(table, rec - {j}, into, k);
      PrefixedTakes(table, rec - {k}, into, j);
      assert rec - {j} - {k} == rec - {k} - {j};
      NamesDiffer(table, j, k);
      SettingsCommute(Prefixed(table, rec - {j} - {k}, into), Name(table, j), rec[j], Name(table, k), rec[k]);
    }
  }

  lemma SettingsCommute(m: Record, a: string, x: Value, b: string, y: Value)
    requires a != b
    ensures m[a := x][b := y] == m[b := y][a := x]
  {
  }

  lemma NamesDiffer(table: string, j: string, k: string)
    requires j != k
    ensures Name(table, j) != Name(table, k)
  {
    assert Name(table, j)[|table| + 1..] == j && Name(table, k)[|table| + 1..] == k;
  }

  /** What the prefixed record holds under each name. */
  lemma {:induction false} PrefixedHolds(table: string, rec: Record, into: Record, k: string)
    ensures k in rec ==> Name(table, k) in Prefixed(table, rec, into) && Prefixed(table, rec, into)[Name(table, k)] == rec[k]
    ensures k !in rec ==> (Name(table, k) in Prefixed(table, rec, into) <==> Name(table, k) in into)
    decreases |rec|
  {
    if k in rec {
      PrefixedTakes(table, rec, into, k);
    } else if rec != map[] {
      var j :| j in rec;
      PrefixedTakes(table, rec, into, j);
      PrefixedHolds(table, rec - {j}, into, k);
      NamesDiffer(table, j, k);
    }
  }

  /** Both records side by side; where the prefixed names coincide the right one shows. */
  ghost function Merged(plan: Plan, l: Record, r: Record): Record {
    Prefixed(plan.rightTable, r, Prefixed(plan.leftTable, l, map[]))
  }

  /** Filters look at the merged record. */
  ghost function Kept(plan: Plan, merged: Record): multiset<Record> {
    if Matches(plan.filters, merged) then multiset{merged} else multiset{}
  }

  ghost predicate Joins(plan: Plan, l: Record, r: Record) {
    plan.leftField in l && plan.rightField in r && l[plan.leftField] == r[plan.rightField]
  }

  ghost function Partners(plan: Plan, l: Record, right: map<string, Record>): set<string> {
    set k | k in right && Joins(plan, l, right[k])
  }

  ghost function KeptMerge(plan: Plan, l: Record): Record -> multiset<Record> {
    r => Kept(plan, Merged(plan, l, r))
  }

  /** The inner loop: what one right row adds to one left row, given what a partner contributes. */
  ghost function InnerLoop(plan: Plan, l: Record, right: map<string, Record>, keep: Record -> multiset<Record>)
      : string -> multiset<Record> {
    k => if k in right && Joins(plan, l, right[k]) then keep(right[k]) else multiset{}
  }

  /** All rows that one left row produces; a left join keeps it even when it has no partner. */
  ghost function RowJoin(plan: Plan, l: Record, right: map<string, Record>): multiset<Record> {
    if Partners(plan, l, right) != {} then Sum(right.Keys, InnerLoop(plan, l, right, KeptMerge(plan, l)))
    else if plan.joinType.LeftJoin? then Kept(plan, Merged(plan, l, map[]))
    else multiset{}
  }

  ghost function LeftRow(plan: Plan, left: map<string, Record>, right: map<string, Record>): string -> multiset<Record> {
    k => if k in left then RowJoin(plan, left[k], right) else multiset{}
  }

  /** The outer loop over all left rows. */
  ghost function NestedLoop(plan: Plan, left: map<string, Record>, right: map<string, Record>): multiset<Record> {
    Sum(left.Keys, LeftRow(plan, left, right))
  }

  lemma KeptUnfiltered(plan: Plan, merged: Record)
    requires plan.filters == map[]
    ensures |Kept(plan, merged)| == 1
  {
  }

  lemma KeptMergeAt(plan: Plan, l: Record, r: Record, merged: Record)
    requires merged == Merged(plan, l, r)
    ensures KeptMerge(plan, l)(r) == Kept(plan, merged)
  {
  }

  lemma InnerLoopSize(plan: Plan, l: Record, right: map<string, Record>, keep: Record -> multiset<Record>)
    requires forall r :: |keep(r)| == 1
    ensures |Sum(right.Keys, InnerLoop(plan, l, right, keep))| == |Partners(plan, l, right)|
  {
    var partners, inner := Partners(plan, l, right), InnerLoop(plan, l, right, keep);
    SumIgnores(right.Keys, partners, inner);
    SumCounts(partners, inner);
  }

  /** Without filters a left row of a left join gives max(1, partners) rows, of an inner join partners rows. */
  lemma RowJoinSize(plan: Plan, l: Record, right: map<string, Record>)
    requires plan.filters == map[]
    ensures var n := |Partners(plan, l, right)|;
      |RowJoin(plan, l, right)| == if n == 0 && plan.joinType.LeftJoin? then 1 else n
  {
    forall r
      ensures |KeptMerge(plan, l)(r)| == 1
    {
      var merged := Merged(plan, l, r);
      KeptUnfiltered(plan, merged);
      KeptMergeAt(plan, l, r, merged);
    }
    InnerLoopSize(plan, l, right, KeptMerge(plan, l));
    KeptUnfiltered(plan, Merged(plan, l, map[]));
  }

  // ----- what the merged record holds -----

  lemma {:induction false} PrefixedElsewhere(table: string, rec: Record, into: Record, n: string)
    requires forall f :: f in rec ==> Name(table, f) != n
    ensures (n in Prefixed(table, rec, into) <==> n in into) && (n in into ==> Prefixed(table, rec, into)[n] == into[n])
    decreases |rec|
  {
    if rec != map[] {
      var j :| j in rec;
      PrefixedTakes(table, rec, into, j);
      PrefixedElsewhere(table, rec - {j}, into, n);
    }
  }

  /** n is the name of a field of rec under the table name. */
  predicate Names(table: string, rec: Record, n: string) {
    exists f :: f in rec && n == table + "." + f
  }

  /**
   * The left fields under "left.", the right fields under "right.", and nothing else; where two names
   * coincide the right field shows.
   */
  ghost predicate SideBySide(plan: Plan, l: Record, r: Record, m: Record) {
    && (forall f :: f in r ==> plan.rightTable + "." + f in m && m[plan.rightTable + "." + f] == r[f])
    && (forall f :: f in l ==> plan.leftTable + "." + f in m)
    && (forall f :: f in l && !Names(plan.rightTable, r, plan.leftTable + "." + f) ==>
          plan.leftTable + "." + f in m && m[plan.leftTable + "." + f] == l[f])
    && (forall n :: n in m ==> Names(plan.leftTable, l, n) || Names(plan.rightTable, r, n))
  }

  lemma MergedSideBySide(plan: Plan, l: Record, r: Record)
    ensures SideBySide(plan, l, r, Merged(plan, l, r))
  {
    var first, m := Prefixed(plan.leftTable, l, map[]), Merged(plan, l, r);
    forall f | f in r
      ensures plan.rightTable + "." + f in m && m[plan.rightTable + "." + f] == r[f]
    {
      PrefixedHolds(plan.rightTable, r, first, f);
    }
    forall f | f in l
      ensures plan.leftTable + "." + f in m
      ensures !Names(plan.rightTable, r, plan.leftTable + "." + f) ==> m[plan.leftTable + "." + f] == l[f]
    {
      PrefixedHolds(plan.leftTable, l, map[], f);
      LeftShows(plan, r, first, plan.leftTable + "." + f);
    }
    forall n | n in m
      ensures Names(plan.leftTable, l, n) || Names(plan.rightTable, r, n)
    {
      if !Names(plan.rightTable, r, n) { PrefixedElsewhere(plan.rightTable, r, first, n); }
      if !Names(plan.leftTable, l, n) { PrefixedElsewhere(plan.leftTable, l, map[], n); }
    }
  }

  lemma LeftShows(plan: Plan, r: Record, first: Record, n: string)
    requires n in first
    ensures n in Prefixed(plan.rightTable, r, first)
    ensures !Names(plan.rightTable, r, n) ==> Prefixed(plan.rightTable, r, first)[n] == first[n]
  {
    if Names(plan.rightTable, r, n) {
      var f :| f in r && n == plan.rightTable + "." + f;
      PrefixedHolds(plan.rightTable, r, first, f);
    } else {
      PrefixedElsewhere(plan.rightTable, r, first, n);
    }
  }

  lemma SideBySideOneWay(plan: Plan, l: Record, r: Record, a: Record, b: Record)
    requires SideBySide(plan, l, r, a) && SideBySide(plan, l, r, b)
    ensures a == b
  {
    forall n
      ensures n in a <==> n in b
      ensures n in a && n in b ==> a[n] == b[n]
    {
      SameShown(plan, l, r, a, b, n);
      SameShown(plan, l, r, b, a, n);
    }
    SameMap(a, b);
  }

  lemma SameShown(plan: Plan, l: Record, r: Record, a: Record, b: Record, n: string)
    requires SideBySide(plan, l, r, a) && SideBySide(plan, l, r, b)
    ensures n in a ==> n in b && a[n] == b[n]
  {
    if n in a {
      if Names(plan.rightTable, r, n) {
        var f :| f in r && n == plan.rightTable + "." + f;
      } else {
        var f :| f in l && n == plan.leftTable + "." + f;
      }
    }
  }

  /** The merged record is the one that holds both records' fields side by side. */
  lemma MergedIff(plan: Plan, l: Record, r: Record, m: Record)
    ensures m == Merged(plan, l, r) <==> SideBySide(plan, l, r, m)
  {
    MergedSideBySide(plan, l, r);
    if SideBySide(plan, l, r, m) { SideBySideOneWay(plan, l, r, m, Merged(plan, l, r)); }
  }

  // ----- how often a row is in a join -----

  /** The two rows hold the same value in the fields they are joined on, and m is the two side by side. */
  ghost predicate PairGives(plan: Plan, l: Record, r: Record, m: Record) {
    && plan.leftField in l && plan.rightField in r && l[plan.leftField] == r[plan.rightField]
    && SideBySide(plan, l, r, m)
  }

  /** A left join, no right row to join with, and m is the left row on its own. */
  ghost predicate AloneGives(plan: Plan, l: Record, right: map<string, Record>, m: Record) {
    && plan.joinType.LeftJoin?
    && (forall k :: k in right && plan.leftField in l && plan.rightField in right[k] ==>
          l[plan.leftField] != right[k][plan.rightField])
    && SideBySide(plan, l, map[], m)
  }

  /** Whether the rows under two keys give m. */
  ghost function Giving(plan: Plan, left: map<string, Record>, right: map<string, Record>, m: Record)
      : (string, string) -> bool {
    (j, k) => j in left && k in right && PairGives(plan, left[j], right[k], m)
  }

  ghost function GivingAlone(plan: Plan, left: map<string, Record>, right: map<string, Record>, m: Record): string -> bool {
    j => j in left && AloneGives(plan, left[j], right, m)
  }

  /** The pairs of keys whose rows give m. */
  ghost function Pairs(plan: Plan, left: map<string, Record>, right: map<string, Record>, m: Record): set<(string, string)> {
    PairsOf(left.Keys, right.Keys, Giving(plan, left, right, m))
  }

  /** The left keys whose rows give m on their own. */
  ghost function Lone(plan: Plan, left: map<string, Record>, right: map<string, Record>, m: Record): set<string> {
    Those(left.Keys, GivingAlone(plan, left, right, m))
  }

  ghost function RightOf(plan: Plan, l: Record, right: map<string, Record>, m: Record): set<string> {
    set k | k in right && PairGives(plan, l, right[k], m)
  }

  /** m has every filter field with the given value. */
  ghost predicate Passes(plan: Plan, m: Record) {
    forall f :: f in plan.filters ==> f in m && m[f] == plan.filters[f]
  }

  lemma KeptOccurs(plan: Plan, l: Record, r: Record, m: Record)
    ensures Kept(plan, Merged(plan, l, r))[m] == if SideBySide(plan, l, r, m) && Passes(plan, m) then 1 else 0
  {
    MergedIff(plan, l, r, m);
    KeptOnce(plan, Merged(plan, l, r), m);
  }

  lemma KeptOnce(plan: Plan, merged: Record, m: Record)
    ensures Kept(plan, merged)[m] == if m == merged && Passes(plan, m) then 1 else 0
  {
    assert Passes(plan, merged) <==> Matches(plan.filters, merged);
  }

  lemma InnerOccurs(plan: Plan, l: Record, right: map<string, Record>, m: Record, k: string)
    requires k in right
    ensures InnerLoop(plan, l, right, KeptMerge(plan, l))(k)[m]
         == if PairGives(plan, l, right[k], m) && Passes(plan, m) then 1 else 0
  {
    KeptOccurs(plan, l, right[k], m);
    KeptMergeAt(plan, l, right[k], Merged(plan, l, right[k]));
  }

  lemma PartnersOccur(plan: Plan, l: Record, right: map<string, Record>, m: Record)
    ensures Sum(right.Keys, InnerLoop(plan, l, right, KeptMerge(plan, l)))[m]
         == if Passes(plan, m) then |RightOf(plan, l, right, m)| else 0
  {
    var inner := InnerLoop(plan, l, right, KeptMerge(plan, l));
    var some := if Passes(plan, m) then RightOf(plan, l, right, m) else {};
    forall k | k in right.Keys
      ensures inner(k)[m] == if k in some then 1 else 0
    {
      InnerOccurs(plan, l, right, m, k);
    }
    SumOfSome(right.Keys, inner, m, some);
  }

  lemma NoPartners(plan: Plan, l: Record, right: map<string, Record>, m: Record)
    ensures Partners(plan, l, right) == {} ==> RightOf(plan, l, right, m) == {}
    ensures AloneGives(plan, l, right, m) <==>
      plan.joinType.LeftJoin? && Partners(plan, l, right) == {} && SideBySide(plan, l, map[], m)
  {
    forall k | k in right
      ensures k in Partners(plan, l, right) <==>
        plan.leftField in l && plan.rightField in right[k] && l[plan.leftField] == right[k][plan.rightField]
    {
    }
  }

  lemma RowOccurs(plan: Plan, l: Record, right: map<string, Record>, m: Record)
    ensures RowJoin(plan, l, right)[m]
         == if Passes(plan, m) then |RightOf(plan, l, right, m)| + (if AloneGives(plan, l, right, m) then 1 else 0) else 0
  {
    PartnersOccur(plan, l, right, m);
    KeptOccurs(plan, l, map[], m);
    NoPartners(plan, l, right, m);
  }

  lemma RightsGiving(plan: Plan, left: map<string, Record>, right: map<string, Record>, j: string, m: Record)
    requires j in left
    ensures RightsOf(j, right.Keys, Giving(plan, left, right, m)) == RightOf(plan, left[j], right, m)
  {
  }

  lemma LoopOccurs(plan: Plan, left: map<string, Record>, right: map<string, Record>, m: Record)
    ensures NestedLoop(plan, left, right)[m]
         == if Passes(plan, m) then |Pairs(plan, left, right, m)| + |Lone(plan, left, right, m)| else 0
  {
    var f, gives, alone := LeftRow(plan, left, right), Giving(plan, left, right, m), GivingAlone(plan, left, right, m);
    forall j | j in left.Keys
      ensures f(j)[m] == if Passes(plan, m) then |RightsOf(j, right.Keys, gives)| + (if alone(j) then 1 else 0) else 0
    {
      RowOccurs(plan, left[j], right, m);
      RightsGiving(plan, left, right, j, m);
    }
    if Passes(plan, m) {
      SumOfPairs(left.Keys, right.Keys, gives, alone, f, m);
    } else {
      SumMisses(left.Keys, f, m);
    }
  }

  /**
   * The rows of a join: each has every filter field with the given value, and occurs as often as there
   * are pairs of rows that give it, plus, in a left join, left rows without partner that give it.
   */
  ghost predicate Joined(plan: Plan, left: map<string, Record>, right: map<string, Record>, rows: multiset<Record>) {
    forall m {:trigger rows[m]} :: rows[m]
      == if forall f :: f in plan.filters ==> f in m && m[f] == plan.filters[f]
         then |Pairs(plan, left, right, m)| + |Lone(plan, left, right, m)| else 0
  }

  /** The nested loop yields exactly the filtered pairs. */
  lemma NestedLoopJoins(plan: Plan, left: map<string, Record>, right: map<string, Record>)
    ensures Joined(plan, left, right, NestedLoop(plan, left, right))
  {
    forall m
      ensures NestedLoop(plan, left, right)[m]
           == if Passes(plan, m) then |Pairs(plan, left, right, m)| + |Lone(plan, left, right, m)| else 0
    {
      LoopOccurs(plan, left, right, m);
    }
  }
}
