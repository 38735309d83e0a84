/** Order-free totals: every query result is specified as a bag summed over a set of keys. */
module Bags {
  import opened Values

  /** The union, with multiplicities, of f(k) over all k in s. */
  ghost function Sum<K, T>(s: set<K>, f: K -> multiset<T>): multiset<T> {
    if s == {} then multiset{}
    else
      var k :| k in s;
      f(k) + Sum(s - {k}, f)
  }

  /** Any element may be taken out first, so the order of a map iteration is irrelevant. */
  lemma {:induction false} SumTakes<K, T>(s: set<K>, f: K -> multiset<T>, k: K)
    requires k in s
    ensures Sum(s, f) == f(k) + Sum(s - {k}, f)
    decreases |s|
  {
    var j :| j in s && Sum(s, f) == f(j) + Sum(s - {j}, f);
    if j != k {
      SumTakes(s - {j}, f, k);
      SumTakes(s - {k}, f, j);
      assert s - {j} - {k} == s - {k} - {j};
    }
  }

  lemma {:induction false} SumAdds<K, T>(s: set<K>, f: K -> multiset<T>, k: K)
    requires k !in s
    ensures Sum(s + {k}, f) == Sum(s, f) + f(k)
  {
    SumTakes(s + {k}, f, k);
    assert s + {k} - {k} == s;
  }

  lemma {:induction false} SumAgrees<K, T>(s: set<K>, f: K -> multiset<T>, g: K -> multiset<T>)
    requires forall k :: k in s ==> f(k) == g(k)
    ensures Sum(s, f) == Sum(s, g)
    decreases |s|
  {
    if s != {} {
      var k :| k in s;
      SumTakes(s, f, k);
      SumTakes(s, g, k);
      SumAgrees(s - {k}, f, g);
    }
  }

  lemma {:induction false} SumOfNothing<K, T>(s: set<K>, f: K -> multiset<T>)
    requires forall k :: k in s ==> f(k) == multiset{}
    ensures Sum(s, f) == multiset{}
    decreases |s|
  {
    if s != {} {
      var k :| k in s;
      SumTakes(s, f, k);
      SumOfNothing(s - {k}, f);
    }
  }

  lemma {:induction false} SumContains<K, T>(s: set<K>, f: K -> multiset<T>, x: T)
    ensures x in Sum(s, f) <==> exists k :: k in s && x in f(k)
    decreases |s|
  {
    if s != {} {
      var k :| k in s;
      SumTakes(s, f, k);
      SumContains(s - {k}, f, x);
    }
  }

  /** A sum of singletons has as many elements as there are keys. */
  lemma {:induction false} SumCounts<K, T>(s: set<K>, f: K -> multiset<T>)
    requires forall k :: k in s ==> |f(k)| == 1
    ensures |Sum(s, f)| == |s|
    decreases |s|
  {
    if s != {} {
      var k :| k in s;
      SumTakes(s, f, k);
      SumCounts(s - {k}, f);
    }
  }

  /** If no key brings an element twice, it occurs as often as there are keys that bring it. */
  lemma {:induction false} SumOccurs<K, T>(s: set<K>, f: K -> multiset<T>, x: T)
    requires forall k :: k in s ==> f(k)[x] <= 1
    ensures Sum(s, f)[x] == |set k | k in s && x in f(k)|
    decreases |s|
  {
    var all := set k | k in s && x in f(k);
    if s == {} {
      assert all == {};
    } else {
      var k :| k in s;
      var rest := set j | j in s - {k} && x in f(j);
      SumTakes(s, f, k);
      SumOccurs(s - {k}, f, x);
      assert all == rest + if x in f(k) then {k} else {};
    }
  }

  /** If exactly the keys in some bring x, once each. */
  lemma SumOfSome<K, T>(s: set<K>, f: K -> multiset<T>, x: T, some: set<K>)
    requires some <= s && forall k :: k in s ==> f(k)[x] == if k in some then 1 else 0
    ensures Sum(s, f)[x] == |some|
  {
    SumOccurs(s, f, x);
    assert (set k | k in s && x in f(k)) == some;
  }

  // ----- counting pairs -----

  ghost function PairsOf<J, K>(lefts: set<J>, rights: set<K>, gives: (J, K) -> bool): set<(J, K)> {
    set j, k | j in lefts && k in rights && gives(j, k) :: (j, k)
  }

  ghost function RightsOf<J, K>(j: J, rights: set<K>, gives: (J, K) -> bool): set<K> {
    set k | k in rights && gives(j, k)
  }

  ghost function Those<J>(lefts: set<J>, alone: J -> bool): set<J> {
    set j | j in lefts && alone(j)
  }

  lemma {:induction false} TaggedSize<J, K>(j: J, s: set<K>)
    ensures |set k | k in s :: (j, k)| == |s|
    decreases |s|
  {
    var tagged := set k | k in s :: (j, k);
    if s == {} {
      assert tagged == {};
    } else {
      var x :| x in s;
      TaggedSize(j, s - {x});
      assert tagged == (set k | k in s - {x} :: (j, k)) + {(j, x)};
    }
  }

  lemma PairsSplit<J, K>(lefts: set<J>, rights: set<K>, gives: (J, K) -> bool, j: J)
    requires j in lefts
    ensures |PairsOf(lefts, rights, gives)| == |PairsOf(lefts - {j}, rights, gives)| + |RightsOf(j, rights, gives)|
  {
    var own := RightsOf(j, rights, gives);
    TaggedSize(j, own);
    assert PairsOf(lefts, rights, gives) == PairsOf(lefts - {j}, rights, gives) + (set k | k in own :: (j, k));
  }

  lemma ThoseSplit<J>(lefts: set<J>, alone: J -> bool, j: J)
    requires j in lefts
    ensures |Those(lefts, alone)| == |Those(lefts - {j}, alone)| + if alone(j) then 1 else 0
  {
    assert Those(lefts, alone) == Those(lefts - {j}, alone) + if alone(j) then {j} else {};
  }

  /** A loop over the left keys counts pairs, and left keys on their own. */
  lemma {:induction false} SumOfPairs<J, K, T>(lefts: set<J>, rights: set<K>, gives: (J, K) -> bool, alone: J -> bool,
      f: J -> multiset<T>, x: T)
    requires forall j :: j in lefts ==> f(j)[x] == |RightsOf(j, rights, gives)| + if alone(j) then 1 else 0
    ensures Sum(lefts, f)[x] == |PairsOf(lefts, rights, gives)| + |Those(lefts, alone)|
    decreases |lefts|
  {
    if lefts == {} {
      assert PairsOf(lefts, rights, gives) == {} && Those(lefts, alone) == {};
    } else {
      var j :| j in lefts;
      SumTakes(lefts, f, j);
      SumOfPairs(lefts - {j}, rights, gives, alone, f, x);
      PairsSplit(lefts, rights, gives, j);
      ThoseSplit(lefts, alone, j);
    }
  }

  lemma {:induction false} SumMisses<K, T>(s: set<K>, f: K -> multiset<T>, x: T)
    requires forall k :: k in s ==> x !in f(k)
    ensures Sum(s, f)[x] == 0
  {
    SumContains(s, f, x);
  }

  lemma TakeFromUnion<K>(a: set<K>, b: set<K>, k: K)
    requires a !! b && k in a
    ensures a + b - {k} == (a - {k}) + b && |a - {k}| < |a|
  {
  }

  lemma {:induction false} SumUnites<K, T>(a: set<K>, b: set<K>, f: K -> multiset<T>)
    requires a !! b
    ensures Sum(a + b, f) == Sum(a, f) + Sum(b, f)
    decreases |a|
  {
    if a == {} {
      assert a + b == b;
    } else {
      var k :| k in a;
      SumTakes(a + b, f, k);
      SumTakes(a, f, k);
      TakeFromUnion(a, b, k);
      SumUnites(a - {k}, b, f);
    }
  }

  /** The keys whose owner is g. */
  ghost function Group<G, K>(keys: set<K>, owner: K -> G, g: G): set<K> {
    set k | k in keys && owner(k) == g
  }

  /** The keys whose owner is among the groups. */
  ghost function Grouped<G, K>(keys: set<K>, owner: K -> G, groups: set<G>): set<K> {
    set k | k in keys && owner(k) in groups
  }

  ghost function ByGroup<G, K, T>(keys: set<K>, owner: K -> G, f: K -> multiset<T>): G -> multiset<T> {
    g => Sum(Group(keys, owner, g), f)
  }

  lemma GroupedSplits<G, K>(keys: set<K>, owner: K -> G, groups: set<G>, g: G)
    requires g in groups
    ensures Grouped(keys, owner, groups) == Group(keys, owner, g) + Grouped(keys, owner, groups - {g})
    ensures Group(keys, owner, g) !! Grouped(keys, owner, groups - {g})
  {
  }

  /** Summing group by group is summing over everything that belongs to a group. */
  lemma {:induction false} SumByGroup<G, K, T>(groups: set<G>, keys: set<K>, owner: K -> G, f: K -> multiset<T>)
    ensures Sum(groups, ByGroup(keys, owner, f)) == Sum(Grouped(keys, owner, groups), f)
    decreases |groups|
  {
    if groups == {} {
      assert Grouped(keys, owner, groups) == {};
    } else {
      var g :| g in groups;
      SumTakes(groups, ByGroup(keys, owner, f), g);
      SumByGroup(groups - {g}, keys, owner, f);
      GroupedSplits(keys, owner, groups, g);
      SumUnites(Group(keys, owner, g), Grouped(keys, owner, groups - {g}), f);
    }
  }

  /** Keys whose summand is empty do not matter. */
  lemma {:induction false} SumIgnores<K, T>(s: set<K>, rest: set<K>, f: K -> multiset<T>)
    requires rest <= s && forall k :: k in s - rest ==> f(k) == multiset{}
    ensures Sum(s, f) == Sum(rest, f)
  {
    SumUnites(rest, s - rest, f);
    assert rest + (s - rest) == s;
    SumOfNothing(s - rest, f);
  }

  /** The summand that contributes exactly one element per key. */
  ghost function Each<K, T>(row: K -> T): K -> multiset<T> {
    k => multiset{row(k)}
  }

  /** The keys that bring x. */
  ghost function Bringing<K, T>(s: set<K>, row: K -> T, x: T): set<K> {
    set k | k in s && row(k) == x
  }

  lemma EachOccurs<K, T>(s: set<K>, row: K -> T, x: T)
    ensures Sum(s, Each(row))[x] == |Bringing(s, row, x)|
  {
    SumOccurs(s, Each(row), x);
    assert (set k | k in s && x in Each(row)(k)) == Bringing(s, row, x);
  }

  ghost function Then<K, R, T>(row: K -> R, g: R -> multiset<T>): K -> multiset<T> {
    k => g(row(k))
  }

  /** What a loop over a sequence gathers when each element contributes g of itself. */
  ghost function Gather<R, T>(s: seq<R>, g: R -> multiset<T>): multiset<T> {
    if s == [] then multiset{} else Gather(s[..|s| - 1], g) + g(s[|s| - 1])
  }

  /** One more round of the loop. */
  lemma GatherStep<R, T>(s: seq<R>, g: R -> multiset<T>, i: nat)
    requires i < |s|
    ensures Gather(s[..i + 1], g) == Gather(s[..i], g) + g(s[i])
  {
    assert s[..i + 1][..i] == s[..i];
  }

  lemma Cancels<T>(a: multiset<T>, b: multiset<T>, x: T)
    requires a + multiset{x} == multiset{x} + b
    ensures a == b
  {
    assert a == (a + multiset{x}) - multiset{x};
    assert b == (multiset{x} + b) - multiset{x};
  }

  /** If a sequence enumerates one row per key, in any order, looping over it sums over the keys. */
  lemma {:induction false} GatherIsSum<K, R, T>(s: seq<R>, keys: set<K>, row: K -> R, g: R -> multiset<T>)
    requires multiset(s) == Sum(keys, Each(row))
    ensures Gather(s, g) == Sum(keys, Then(row, g))
    decreases |s|
  {
    if s == [] {
      assert keys == {};
    } else {
      var front, last := s[..|s| - 1], s[|s| - 1];
      assert s == front + [last];
      assert last in multiset(s);
      SumContains(keys, Each(row), last);
      var k :| k in keys && last in Each(row)(k);
      SumTakes(keys, Each(row), k);
      SumTakes(keys, Then(row, g), k);
      Cancels(multiset(front), Sum(keys - {k}, Each(row)), last);
      GatherIsSum(front, keys - {k}, row, g);
    }
  }

  /** The part of a loop that turns each element into one result. */
  ghost function One<R, T>(f: R -> T): R -> multiset<T> {
    r => multiset{f(r)}
  }

  lemma {:induction false} GatherEach<R, T>(rs: seq<R>, ts: seq<T>, f: R -> T)
    requires |ts| == |rs| && forall i :: 0 <= i < |rs| ==> ts[i] == f(rs[i])
    ensures multiset(ts) == Gather(rs, One(f))
  {
    if rs == [] {
      assert ts == [];
    } else {
      var n := |rs| - 1;
      GatherEach(rs[..n], ts[..n], f);
      assert ts == ts[..n] + [ts[n]];
    }
  }

  /** The order in which a list shows one element per key. */
  lemma {:induction false} BagListed<K, T>(s: seq<T>, keys: set<K>, f: K -> T) returns (order: seq<K>)
    requires multiset(s) == Sum(keys, Each(f))
    ensures |order| == |s| && NoDuplicates(order) && (forall k :: k in order <==> k in keys)
    ensures forall i :: 0 <= i < |s| ==> s[i] == f(order[i])
    decreases |s|
  {
    if s == [] {
      assert keys == {};
      order := [];
    } else {
      var front, last := s[..|s| - 1], s[|s| - 1];
      assert s == front + [last];
      assert last in multiset(s);
      SumContains(keys, Each(f), last);
      var k :| k in keys && last in Each(f)(k);
      SumTakes(keys, Each(f), k);
      Cancels(multiset(front), Sum(keys - {k}, Each(f)), last);
      var before := BagListed(front, keys - {k}, f);
      order := before + [k];
    }
  }

  /** The order in which a list whose elements are viewed in some way shows one per key. */
  lemma GatherListed<K, R, T>(s: seq<R>, view: R -> T, keys: set<K>, f: K -> T) returns (order: seq<K>)
    requires Gather(s, One(view)) == Sum(keys, Each(f))
    ensures |order| == |s| && NoDuplicates(order) && (forall k :: k in order <==> k in keys)
    ensures forall i :: 0 <= i < |s| ==> view(s[i]) == f(order[i])
  {
    var views := seq(|s|, i requires 0 <= i < |s| => view(s[i]));
    GatherEach(s, views, view);
    order := BagListed(views, keys, f);
    forall i | 0 <= i < |s|
      ensures view(s[i]) == f(order[i])
    {
      assert views[i] == view(s[i]);
    }
  }

  ghost function After<K, R, T>(f: R -> T, row: K -> R): K -> T {
    k => f(row(k))
  }

  /** The union of g(x) over all x in the bag. */
  ghost function Flat<T, U>(bag: multiset<T>, g: T -> multiset<U>): multiset<U> {
    if bag == multiset{} then multiset{}
    else
      var x :| x in bag;
      g(x) + Flat(bag - multiset{x}, g)
  }

  lemma {:induction false} FlatTakes<T, U>(bag: multiset<T>, g: T -> multiset<U>, x: T)
    requires x in bag
    ensures Flat(bag, g) == g(x) + Flat(bag - multiset{x}, g)
    decreases |bag|
  {
    var y :| y in bag && Flat(bag, g) == g(y) + Flat(bag - multiset{y}, g);
    if y != x {
      FlatTakes(bag - multiset{y}, g, x);
      FlatTakes(bag - multiset{x}, g, y);
      assert bag - multiset{y} - multiset{x} == bag - multiset{x} - multiset{y};
    }
  }

  /** Flattening a bag of one element per key sums over the keys. */
  lemma {:induction false} FlatOfSum<K, T, U>(keys: set<K>, row: K -> T, g: T -> multiset<U>)
    ensures Flat(Sum(keys, Each(row)), g) == Sum(keys, Then(row, g))
    decreases |keys|
  {
    if keys == {} {
    } else {
      var k :| k in keys;
      SumTakes(keys, Each(row), k);
      SumTakes(keys, Then(row, g), k);
      FlatOfSum(keys - {k}, row, g);
      FlatTakes(Sum(keys, Each(row)), g, row(k));
      assert Sum(keys, Each(row)) - multiset{row(k)} == Sum(keys - {k}, Each(row));
    }
  }
}
