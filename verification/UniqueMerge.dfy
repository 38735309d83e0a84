/** The ordered union that keeps a connection's component list. */
module UniqueMerge {
  import opened Values

  /** The elements of ys that xs lacks, in their order and with their repetitions. */
  function Missing(xs: seq<string>, ys: seq<string>): (r: seq<string>) {
    if ys == [] then []
    else
      var front := Missing(xs, ys[..|ys| - 1]);
      if ys[|ys| - 1] in xs then front else front + [ys[|ys| - 1]]
  }

  function MergeLists(xs: seq<string>, ys: seq<string>): seq<string> {
    xs + Missing(xs, ys)
  }

  /** The merge as the database calls it, on untyped values. */
  function MergeValues(existing: Value, incoming: Value): Value {
    StrList(MergeLists(AsList(existing), AsList(incoming)))
  }

  method MergeUniqueStrings(existing: Value, incoming: Value) returns (merged: Value)
    ensures merged == MergeValues(existing, incoming)
  {
    var existingIDs, newIDs := AsList(existing), AsList(incoming);
    var seen: set<string> := {};
    for i := 0 to |existingIDs|
      invariant forall x :: x in seen <==> x in existingIDs[..i]
    {
      seen := seen + {existingIDs[i]};
    }
    var result := existingIDs;
    for i := 0 to |newIDs|
      invariant result == existingIDs + Missing(existingIDs, newIDs[..i])
    {
      assert newIDs[..i + 1][..i] == newIDs[..i];
      if newIDs[i] !in seen {
        result := result + [newIDs[i]];
      }
    }
    assert newIDs[..|newIDs|] == newIDs;
    merged := StrList(result);
  }

  /** First occurrences only, in order. */
  function Dedup(xs: seq<string>): seq<string> {
    if xs == [] then []
    else
      var front := Dedup(xs[..|xs| - 1]);
      if xs[|xs| - 1] in front then front else front + [xs[|xs| - 1]]
  }

  // ----- algebra -----

  lemma {:induction false} MissingHas(xs: seq<string>, ys: seq<string>, x: string)
    ensures x in Missing(xs, ys) <==> x in ys && x !in xs
  {
    if ys != [] {
      MissingHas(xs, ys[..|ys| - 1], x);
      assert ys == ys[..|ys| - 1] + [ys[|ys| - 1]];
    }
  }

  /** The merged list has exactly the elements of both. */
  lemma MergeHas(xs: seq<string>, ys: seq<string>, x: string)
    ensures x in MergeLists(xs, ys) <==> x in xs || x in ys
  {
    MissingHas(xs, ys, x);
  }

  lemma {:induction false} MissingSplits(xs: seq<string>, ys: seq<string>, zs: seq<string>)
    ensures Missing(xs, ys + zs) == Missing(xs, ys) + Missing(xs, zs)
  {
    if zs == [] {
      assert ys + zs == ys;
    } else {
      MissingSplits(xs, ys, zs[..|zs| - 1]);
      assert (ys + zs)[..|ys + zs| - 1] == ys + zs[..|zs| - 1];
    }
  }

  lemma {:induction false} MissingTwice(xs: seq<string>, ys: seq<string>, zs: seq<string>)
    ensures Missing(xs, Missing(ys, zs)) == Missing(MergeLists(xs, ys), zs)
  {
    if zs != [] {
      var front, z := zs[..|zs| - 1], zs[|zs| - 1];
      MissingTwice(xs, ys, front);
      MergeHas(xs, ys, z);
      if z !in ys {
        assert (Missing(ys, front) + [z])[..|Missing(ys, front)|] == Missing(ys, front);
      }
    }
  }

  /** Merging is associative on all lists, repetitions included. */
  lemma MergeAssociative(xs: seq<string>, ys: seq<string>, zs: seq<string>)
    ensures MergeLists(xs, MergeLists(ys, zs)) == MergeLists(MergeLists(xs, ys), zs)
  {
    MissingSplits(xs, ys, Missing(ys, zs));
    MissingTwice(xs, ys, zs);
  }

  lemma {:induction false} NothingMissing(xs: seq<string>, ys: seq<string>)
    requires forall y :: y in ys ==> y in xs
    ensures Missing(xs, ys) == []
  {
    if ys != [] {
      assert ys[|ys| - 1] in ys;
      forall y | y in ys[..|ys| - 1]
        ensures y in xs
      {
        assert y in ys;
      }
      NothingMissing(xs, ys[..|ys| - 1]);
    }
  }

  lemma {:induction false} AllMissing(ys: seq<string>)
    ensures Missing([], ys) == ys
  {
    if ys != [] {
      AllMissing(ys[..|ys| - 1]);
    }
  }

  /** Merging what is already there changes nothing; the empty list is the identity on both sides. */
  lemma MergeAbsorbs(xs: seq<string>, ys: seq<string>)
    ensures (forall y :: y in ys ==> y in xs) ==> MergeLists(xs, ys) == xs
    ensures MergeLists(xs, []) == xs && MergeLists([], ys) == ys
  {
    AllMissing(ys);
    if forall y :: y in ys ==> y in xs {
      NothingMissing(xs, ys);
    }
  }

  /** Every element that ys repeats is in xs already. */
  ghost predicate RepeatsOnly(ys: seq<string>, xs: seq<string>) {
    forall i, j :: 0 <= i < j < |ys| && ys[i] == ys[j] ==> ys[i] in xs
  }

  lemma {:induction false} MissingUniqueIff(xs: seq<string>, ys: seq<string>)
    ensures NoDuplicates(Missing(xs, ys)) <==> RepeatsOnly(ys, xs)
  {
    if ys != [] {
      var front, y := ys[..|ys| - 1], ys[|ys| - 1];
      MissingUniqueIff(xs, front);
      MissingHas(xs, front, y);
      if y !in xs {
        assert Missing(xs, front) == Missing(xs, ys)[..|Missing(xs, front)|];
        if y in front {
          var i :| 0 <= i < |front| && front[i] == y;
          assert !RepeatsOnly(ys, xs) by { assert ys[i] == ys[|ys| - 1]; }
          var j :| 0 <= j < |Missing(xs, front)| && Missing(xs, front)[j] == y;
          assert Missing(xs, ys)[j] == Missing(xs, ys)[|Missing(xs, front)|];
        } else {
          assert RepeatsOnly(ys, xs) ==> RepeatsOnly(front, xs);
        }
      }
    }
  }

  /**
   * The merged list is free of repetitions iff the existing list is and the incoming list repeats
   * nothing that is new: repetitions inside the incoming list are not filtered.
   */
  lemma MergeUniqueIff(xs: seq<string>, ys: seq<string>)
    ensures NoDuplicates(MergeLists(xs, ys)) <==> NoDuplicates(xs) && RepeatsOnly(ys, xs)
  {
    var m := MergeLists(xs, ys);
    MissingUniqueIff(xs, ys);
    assert xs == m[..|xs|] && Missing(xs, ys) == m[|xs|..];
    if NoDuplicates(xs) && RepeatsOnly(ys, xs) {
      forall i, j | 0 <= i < j < |m|
        ensures m[i] != m[j]
      {
        if i < |xs| && j >= |xs| {
          assert m[j] in Missing(xs, ys);
          MissingHas(xs, ys, m[j]);
        }
      }
    }
  }

  lemma IncomingRepetitionKept(a: string)
    ensures MergeLists([], [a, a]) == [a, a] && !NoDuplicates(MergeLists([], [a, a]))
  {
    AllMissing([a, a]);
    assert [a, a][0] == [a, a][1];
  }

  lemma {:induction false} DedupHas(xs: seq<string>, x: string)
    ensures x in Dedup(xs) <==> x in xs
  {
    if xs != [] {
      DedupHas(xs[..|xs| - 1], x);
      DedupHas(xs[..|xs| - 1], xs[|xs| - 1]);
      assert xs == xs[..|xs| - 1] + [xs[|xs| - 1]];
    }
  }

  lemma {:induction false} DedupUnique(xs: seq<string>)
    ensures NoDuplicates(Dedup(xs))
  {
    if xs != [] {
      DedupUnique(xs[..|xs| - 1]);
    }
  }

  /** Merging deduplicated lists deduplicates their concatenation. */
  lemma {:induction false} MergeDedups(xs: seq<string>, ys: seq<string>)
    ensures MergeLists(Dedup(xs), Dedup(ys)) == Dedup(xs + ys)
  {
    if ys == [] {
      assert xs + ys == xs;
    } else {
      var front, y := ys[..|ys| - 1], ys[|ys| - 1];
      MergeDedups(xs, front);
      assert (xs + ys)[..|xs + ys| - 1] == xs + front;
      MergeHas(Dedup(xs), Dedup(front), y);
      if y !in Dedup(front) {
        assert (Dedup(front) + [y])[..|Dedup(front)|] == Dedup(front);
      }
    }
  }
}
