/** Combining two keyed collections, with a rule for the keys they share. */
module Combining {

  function Combine<R>(f: (R, R) -> R, t: map<string, R>, a: map<string, R>): (c: map<string, R>)
    ensures c.Keys == t.Keys + a.Keys
  {
    map k | k in t.Keys + a.Keys :: if k !in a then t[k] else if k in t then f(t[k], a[k]) else a[k]
  }

  ghost predicate Associative<R(!new)>(f: (R, R) -> R) {
    forall p, q, r :: f(p, f(q, r)) == f(f(p, q), r)
  }

  /** An associative rule makes the combination associative: this is what lets flushes be merged. */
  lemma CombineAssociative<R(!new)>(f: (R, R) -> R, t: map<string, R>, a: map<string, R>, b: map<string, R>)
    requires Associative(f)
    ensures Combine(f, t, Combine(f, a, b)) == Combine(f, Combine(f, t, a), b)
  {
  }

  lemma CombineIdentity<R>(f: (R, R) -> R, t: map<string, R>)
    ensures Combine(f, t, map[]) == t && Combine(f, map[], t) == t
  {
  }

  lemma CombineIdempotent<R>(f: (R, R) -> R, a: map<string, R>)
    requires forall k :: k in a ==> f(a[k], a[k]) == a[k]
    ensures Combine(f, a, a) == a
  {
  }

  ghost predicate AllRows<R>(P: (string, R) -> bool, t: map<string, R>) {
    forall k :: k in t ==> P(k, t[k])
  }

  lemma CombineKeeps<R(!new)>(f: (R, R) -> R, P: (string, R) -> bool, t: map<string, R>, a: map<string, R>)
    requires AllRows(P, t) && AllRows(P, a)
    requires forall k, p, q :: P(k, p) && P(k, q) ==> P(k, f(p, q))
    ensures AllRows(P, Combine(f, t, a))
  {
  }

  /** Only the rows count that the collections hold under a key. */
  lemma CombineAt<R>(f: (R, R) -> R, t: map<string, R>, a: map<string, R>, k: string)
    ensures k in Combine(f, t, a) <==> k in t || k in a
    ensures k in t && k in a ==> Combine(f, t, a)[k] == f(t[k], a[k])
    ensures k in t && k !in a ==> Combine(f, t, a)[k] == t[k]
    ensures k !in t && k in a ==> Combine(f, t, a)[k] == a[k]
  {
  }

  lemma CombineSize<R>(f: (R, R) -> R, t: map<string, R>, a: map<string, R>)
    ensures |Combine(f, t, a)| <= |t| + |a|
  {
    assert |t.Keys + a.Keys| <= |t.Keys| + |a.Keys|;
    assert |Combine(f, t, a)| == |Combine(f, t, a).Keys|;
  }

  lemma CombineGrows<R>(f: (R, R) -> R, t: map<string, R>, a: map<string, R>)
    ensures |t| <= |Combine(f, t, a)|
  {
    assert |t.Keys + (a.Keys - t.Keys)| == |t.Keys| + |a.Keys - t.Keys|;
    assert t.Keys + (a.Keys - t.Keys) == Combine(f, t, a).Keys;
    assert |Combine(f, t, a)| == |Combine(f, t, a).Keys| && |t| == |t.Keys|;
  }

  lemma SmallMaps<R>(j: string, p: R, k: string, q: R)
    ensures |map[k := q]| == 1 && |map[j := p][k := q]| <= 2
  {
    assert map[k := q].Keys == {k} && map[j := p][k := q].Keys == {j, k};
    assert |map[j := p][k := q]| == |map[j := p][k := q].Keys|;
  }
}
