/** One secondary index: a bucket of record keys for each value of the indexed field. */
module SecondaryIndex {
  import opened Values

  type Index = map<Value, seq<string>>

  function Bucket(idx: Index, v: Value): seq<string> {
    if v in idx then idx[v] else []
  }

  /** How often key k sits in the bucket of v. */
  ghost function Times(idx: Index, v: Value, k: string): nat {
    multiset(Bucket(idx, v))[k]
  }

  function Add(idx: Index, v: Value, k: string): Index {
    idx[v := Bucket(idx, v) + [k]]
  }

  /** The sequence without its first occurrence of k. */
  function DropFirst(s: seq<string>, k: string): seq<string> {
    if s == [] then [] else if s[0] == k then s[1..] else [s[0]] + DropFirst(s[1..], k)
  }

  /** Takes one occurrence of k out of the bucket of v, and the bucket itself once it is empty. */
  function Remove(idx: Index, v: Value, k: string): Index {
    var rest := DropFirst(Bucket(idx, v), k);
    if rest == [] then idx - {v} else idx[v := rest]
  }

  lemma {:induction false} DropFirstSkips(s: seq<string>, k: string, i: nat)
    requires i <= |s| && k !in s[..i]
    ensures DropFirst(s, k) == s[..i] + DropFirst(s[i..], k)
  {
    if i == 0 {
      assert s[0..] == s;
    } else {
      assert s[..i] == [s[0]] + s[1..][..i - 1];
      assert s[0] != k by { assert s[0] in s[..i]; }
      assert k !in s[1..][..i - 1];
      DropFirstSkips(s[1..], k, i - 1);
    }
  }

  lemma {:induction false} DropFirstBag(s: seq<string>, k: string)
    ensures multiset(DropFirst(s, k)) == multiset(s) - multiset{k}
  {
    if s != [] {
      assert s == [s[0]] + s[1..];
      DropFirstBag(s[1..], k);
    }
  }

  lemma AddTimes(idx: Index, v: Value, k: string, v': Value, k': string)
    ensures Times(Add(idx, v, k), v', k') == Times(idx, v', k') + (if v' == v && k' == k then 1 else 0)
  {
  }

  lemma RemoveTimes(idx: Index, v: Value, k: string, v': Value, k': string)
    ensures Times(Remove(idx, v, k), v', k')
         == Times(idx, v', k') - (if v' == v && k' == k && Times(idx, v, k) > 0 then 1 else 0)
  {
    if v' == v {
      DropFirstBag(Bucket(idx, v), k);
      assert Bucket(Remove(idx, v, k), v) == DropFirst(Bucket(idx, v), k);
    } else {
      assert Bucket(Remove(idx, v, k), v') == Bucket(idx, v');
    }
  }

  ghost predicate NoEmptyBucket(idx: Index) {
    forall v :: v in idx ==> idx[v] != []
  }

  /**
   * The relation between an index and the indexed field p (record key to field value).
   * Exact: every key sits once in the bucket of its value and nowhere else, and no bucket is
   * empty.  Otherwise only: every key can be found in the bucket of its value.
   */
  ghost predicate Reflects(exact: bool, idx: Index, p: map<string, Value>) {
    && (exact ==> NoEmptyBucket(idx))
    && forall v, k :: if exact then Times(idx, v, k) == (if k in p && p[k] == v then 1 else 0)
                      else k in p && p[k] == v ==> Times(idx, v, k) > 0
  }

  lemma ReflectsAdd(exact: bool, idx: Index, p: map<string, Value>, v: Value, k: string)
    requires Reflects(exact, idx, p)
    requires exact ==> k !in p
    ensures Reflects(exact, Add(idx, v, k), p[k := v])
  {
    forall v', k' { AddTimes(idx, v, k, v', k'); }
  }

  lemma ReflectsMove(exact: bool, idx: Index, p: map<string, Value>, v: Value, k: string)
    requires Reflects(exact, idx, p) && k in p
    ensures Reflects(exact, Add(Remove(idx, p[k], k), v, k), p[k := v])
  {
    ReflectsRemove(exact, idx, p, k);
    var idx' := Remove(idx, p[k], k);
    ReflectsAdd(exact, idx', p - {k}, v, k);
    assert (p - {k})[k := v] == p[k := v];
  }

  lemma ReflectsRemove(exact: bool, idx: Index, p: map<string, Value>, k: string)
    requires Reflects(exact, idx, p) && k in p
    ensures Reflects(exact, Remove(idx, p[k], k), p - {k})
  {
    forall v', k' { RemoveTimes(idx, p[k], k, v', k'); }
  }

  /** Adding a key and taking it out again leaves the index as it was, bucket order included. */
  lemma RemoveUndoesAdd(idx: Index, v: Value, k: string)
    requires NoEmptyBucket(idx) && Times(idx, v, k) == 0
    ensures Remove(Add(idx, v, k), v, k) == idx
  {
    var b := Bucket(idx, v);
    assert k !in b by { assert multiset(b)[k] == 0; }
    FoundLast(b, k);
    if b == [] {
      assert idx[v := b + [k]] - {v} == idx;
    } else {
      assert idx[v := b + [k]][v := b] == idx;
    }
  }

  lemma FoundLast(b: seq<string>, k: string)
    requires k !in b
    ensures DropFirst(b + [k], k) == b
  {
    var s := b + [k];
    assert s[..|b|] == b && s[|b|..] == [k];
    DropFirstSkips(s, k, |b|);
    assert [k][1..] == [];
  }
}
