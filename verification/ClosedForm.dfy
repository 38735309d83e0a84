/** What processed spans amount to, stated directly on the span list. */
module ClosedForm {
  import opened Values
  import opened Combining
  import opened UniqueMerge
  import opened Spans
  import opened Accumulation

  ghost predicate Any(spans: seq<Span>, p: Span -> bool) {
    exists i :: 0 <= i < |spans| && p(spans[i])
  }

  ghost predicate LastWith(spans: seq<Span>, p: Span -> bool, i: int) {
    0 <= i < |spans| && p(spans[i]) && forall j :: i < j < |spans| ==> !p(spans[j])
  }

  ghost predicate FirstWith(spans: seq<Span>, p: Span -> bool, i: int) {
    0 <= i < |spans| && p(spans[i]) && forall j :: 0 <= j < i ==> !p(spans[j])
  }

  lemma SomeSplits(spans: seq<Span>, p: Span -> bool)
    requires spans != []
    ensures Any(spans, p) <==> Any(spans[..|spans| - 1], p) || p(spans[|spans| - 1])
  {
    var front := spans[..|spans| - 1];
    if i :| 0 <= i < |spans| && p(spans[i]) {
      assert i < |front| ==> front[i] == spans[i];
    }
  }

  lemma LastSplits(spans: seq<Span>, p: Span -> bool, i: int)
    requires spans != [] && LastWith(spans, p, i)
    ensures if p(spans[|spans| - 1]) then i == |spans| - 1 else LastWith(spans[..|spans| - 1], p, i)
  {
  }

  lemma FirstSplits(spans: seq<Span>, p: Span -> bool, i: int)
    requires spans != [] && FirstWith(spans, p, i)
    ensures if Any(spans[..|spans| - 1], p) then FirstWith(spans[..|spans| - 1], p, i) else i == |spans| - 1
  {
    var front := spans[..|spans| - 1];
    if j :| 0 <= j < |front| && p(front[j]) {
      assert spans[j] == front[j];
    }
  }

  // ----- app items -----

  ghost function Naming(n: string): Span -> bool {
    s => Source(s) == n || Destination(s) == n
  }

  /** The type a span gives to an app item it names; the destination role wins. */
  function Role(cfg: Config, s: Span, n: string): string {
    if Destination(s) == n then HandlerFor(cfg, s).destinationType else SourceType(n)
  }

  lemma SameFields(p: Record, q: Record)
    requires p.Keys <= q.Keys
    ensures TakeFields(p, q) == q
  {
  }

  lemma DeltaItem(cfg: Config, s: Span, n: string)
    ensures n in Delta(cfg, s).items <==> Naming(n)(s)
    ensures Naming(n)(s) ==> Delta(cfg, s).items[n] == ItemRow(n, Role(cfg, s, n))
  {
  }

  /** The app items are the names that occur, each with its role in the last span that names it. */
  lemma {:induction false} ItemsClosedForm(cfg: Config, spans: seq<Span>, n: string)
    ensures n in Accumulated(DeltaOf(cfg), spans).items <==> Any(spans, Naming(n))
    ensures forall i :: LastWith(spans, Naming(n), i) ==>
      n in Accumulated(DeltaOf(cfg), spans).items &&
      Accumulated(DeltaOf(cfg), spans).items[n] == ItemRow(n, Role(cfg, spans[i], n))
  {
    if spans != [] {
      var front, s := spans[..|spans| - 1], spans[|spans| - 1];
      var t, d := Accumulated(DeltaOf(cfg), front).items, Delta(cfg, s).items;
      ItemsClosedForm(cfg, front, n);
      DeltasWellFormed(cfg);
      AccumulatedWellFormed(DeltaOf(cfg), front);
      DeltaItem(cfg, s, n);
      SomeSplits(spans, Naming(n));
      CombineAt(TakeFields, t, d, n);
      if n in t && n in d {
        assert IsItem(n, t[n]);
        SameFields(t[n], d[n]);
      }
      forall i | LastWith(spans, Naming(n), i)
        ensures n in Accumulated(DeltaOf(cfg), spans).items
        ensures Accumulated(DeltaOf(cfg), spans).items[n] == ItemRow(n, Role(cfg, spans[i], n))
      {
        LastSplits(spans, Naming(n), i);
      }
    }
  }

  // ----- components -----

  ghost function Hosting(cfg: Config, c: string): Span -> bool {
    s => ComponentId(cfg, s) == c
  }

  /** The components are the component ids that occur, each described by the last span that has it. */
  lemma {:induction false} ComponentsClosedForm(cfg: Config, spans: seq<Span>, c: string)
    ensures c in Accumulated(DeltaOf(cfg), spans).comps <==> Any(spans, Hosting(cfg, c))
    ensures forall i :: LastWith(spans, Hosting(cfg, c), i) ==>
      c in Accumulated(DeltaOf(cfg), spans).comps && Accumulated(DeltaOf(cfg), spans).comps[c] == ComponentRow(cfg, spans[i])
  {
    if spans != [] {
      var front, s := spans[..|spans| - 1], spans[|spans| - 1];
      var t, d := Accumulated(DeltaOf(cfg), front).comps, Delta(cfg, s).comps;
      ComponentsClosedForm(cfg, front, c);
      DeltasWellFormed(cfg);
      AccumulatedWellFormed(DeltaOf(cfg), front);
      SomeSplits(spans, Hosting(cfg, c));
      CombineAt(TakeFields, t, d, c);
      if c in t && c in d {
        assert IsComponent(c, t[c]);
        SameFields(t[c], d[c]);
      }
      forall i | LastWith(spans, Hosting(cfg, c), i)
        ensures c in Accumulated(DeltaOf(cfg), spans).comps
        ensures Accumulated(DeltaOf(cfg), spans).comps[c] == ComponentRow(cfg, spans[i])
      {
        LastSplits(spans, Hosting(cfg, c), i);
      }
    }
  }

  // ----- personal data -----

  /** The span has the finding with the given id. */
  ghost function Exposing(cfg: Config, id: string): Span -> bool {
    s => exists k :: k in Kinds(cfg, s) && id == PiiId(ComponentId(cfg, s), k)
  }

  lemma DeltaPii(cfg: Config, s: Span, id: string)
    ensures id in Delta(cfg, s).piis <==> Exposing(cfg, id)(s)
    ensures Exposing(cfg, id)(s) ==>
      Delta(cfg, s).piis[id] == PiiRow(ComponentId(cfg, s), KindIn(ComponentId(cfg, s), id))
  {
  }

  /**
   * A finding is stored iff some span's scanned text matched that detector; its row comes from the
   * first such span.
   */
  lemma {:induction false} PiisClosedForm(cfg: Config, spans: seq<Span>, id: string)
    ensures id in Accumulated(DeltaOf(cfg), spans).piis <==> Any(spans, Exposing(cfg, id))
    ensures forall i :: FirstWith(spans, Exposing(cfg, id), i) ==>
      && id in Accumulated(DeltaOf(cfg), spans).piis
      && Accumulated(DeltaOf(cfg), spans).piis[id] == PiiRow(ComponentId(cfg, spans[i]), KindIn(ComponentId(cfg, spans[i]), id))
  {
    if spans != [] {
      var front, s := spans[..|spans| - 1], spans[|spans| - 1];
      PiisClosedForm(cfg, front, id);
      DeltaPii(cfg, s, id);
      SomeSplits(spans, Exposing(cfg, id));
      CombineAt(StayFirst, Accumulated(DeltaOf(cfg), front).piis, Delta(cfg, s).piis, id);
      forall i | FirstWith(spans, Exposing(cfg, id), i)
        ensures id in Accumulated(DeltaOf(cfg), spans).piis
        ensures Accumulated(DeltaOf(cfg), spans).piis[id]
             == PiiRow(ComponentId(cfg, spans[i]), KindIn(ComponentId(cfg, spans[i]), id))
      {
        FirstSplits(spans, Exposing(cfg, id), i);
      }
    }
  }

  // ----- connections -----

  ghost function Linking(c: string): Span -> bool {
    s => ConnectionId(s) == c
  }

  /** The component ids that the spans of connection c visit, in order, with repetitions. */
  function Visits(cfg: Config, spans: seq<Span>, c: string): seq<string> {
    if spans == [] then []
    else
      var front := Visits(cfg, spans[..|spans| - 1], c);
      if ConnectionId(spans[|spans| - 1]) == c then front + [ComponentId(cfg, spans[|spans| - 1])] else front
  }

  lemma {:induction false} NoVisits(cfg: Config, spans: seq<Span>, c: string)
    ensures Visits(cfg, spans, c) != [] <==> Any(spans, Linking(c))
  {
    if spans != [] {
      NoVisits(cfg, spans[..|spans| - 1], c);
      SomeSplits(spans, Linking(c));
    }
  }

  lemma DedupOne(xs: seq<string>, x: string)
    ensures Dedup(xs + [x]) == MergeLists(Dedup(xs), [x])
    ensures Dedup([x]) == [x]
  {
    assert [x][..0] == [] && (xs + [x])[..|xs|] == xs;
    assert Missing(Dedup(xs), [x]) == if x in Dedup(xs) then [] else [x];
  }

  lemma JoinRow(s: Span, r: Span, ids: seq<string>, more: seq<string>)
    requires ConnectionId(r) == ConnectionId(s)
    ensures JoinIds(ConnectionRow(s, ids), ConnectionRow(r, more)) == ConnectionRow(s, MergeLists(ids, more))
  {
    assert Ids(ConnectionRow(s, ids)) == ids && Ids(ConnectionRow(r, more)) == more;
  }

  /**
   * The connections are the connection ids that occur; each has the ends given by its first span
   * and, as its component list, the visited components in order of first occurrence.
   */
  lemma {:induction false} ConnectionsClosedForm(cfg: Config, spans: seq<Span>, c: string)
    ensures c in Accumulated(DeltaOf(cfg), spans).conns <==> Any(spans, Linking(c))
    ensures forall i :: FirstWith(spans, Linking(c), i) ==>
      && c in Accumulated(DeltaOf(cfg), spans).conns
      && Accumulated(DeltaOf(cfg), spans).conns[c] == ConnectionRow(spans[i], Dedup(Visits(cfg, spans, c)))
  {
    if spans != [] {
      var front, s := spans[..|spans| - 1], spans[|spans| - 1];
      ConnectionsClosedForm(cfg, front, c);
      SomeSplits(spans, Linking(c));
      NoVisits(cfg, front, c);
      CombineAt(JoinIds, Accumulated(DeltaOf(cfg), front).conns, Delta(cfg, s).conns, c);
      DedupOne(Visits(cfg, front, c), ComponentId(cfg, s));
      forall i | FirstWith(spans, Linking(c), i)
        ensures c in Accumulated(DeltaOf(cfg), spans).conns
        ensures Accumulated(DeltaOf(cfg), spans).conns[c] == ConnectionRow(spans[i], Dedup(Visits(cfg, spans, c)))
      {
        FirstSplits(spans, Linking(c), i);
        if c in Accumulated(DeltaOf(cfg), front).conns && ConnectionId(s) == c {
          JoinRow(spans[i], s, Dedup(Visits(cfg, front, c)), [ComponentId(cfg, s)]);
        }
      }
    }
  }
}
