/** A cached catalog across a call of Process, on the database and the cache as they are. */
module CachedCatalog {
  import opened Values
  import opened Combining
  import opened Spans
  import opened Accumulation
  import opened Flushing
  import opened Schedule
  import opened Responses
  import opened Catalog
  import opened Api

  lemma AlwaysConnects(cfg: Config, spans: seq<Span>)
    ensures AccumulatedBy(cfg)(spans).conns == map[] <==> spans == []
  {
    if spans != [] {
      var x := spans[|spans| - 1];
      assert ConnectionId(x) in DeltaOf(cfg)(x).conns;
      assert ConnectionId(x) in Accumulated(DeltaOf(cfg), spans).conns;
    }
  }

  /** The catalog reads these tables. */
  predicate ServesCatalog(v: View) {
    v.items.Some? && v.comps.Some? && v.piis.Some?
  }

  /** Such a call succeeds iff it has no spans or somewhere to put connections. */
  lemma SucceedsIff(cfg: Config, spans: seq<Span>, v: View)
    requires ServesCatalog(v)
    ensures Writable(v, AccumulatedBy(cfg)(spans)) <==> spans == [] || v.conns.Some?
  {
    AlwaysConnects(cfg, spans);
  }

  /** The spans of the first flush. */
  ghost function FirstFlush(spans: seq<Span>, cuts: seq<int>): seq<Span> {
    if cuts != [] && 0 <= cuts[0] <= |spans| then spans[..cuts[0]] else spans
  }

  lemma CutsPositive(total: seq<Span> -> Tables, spans: seq<Span>, n: int, cuts: seq<int>)
    requires Cuts(Reaching(total, spans, n), cuts) && cuts != []
    ensures 0 < LastCut(cuts) <= |spans|
  {
    assert Reaches(total, spans, n, LastCut(Front(cuts)), LastCut(cuts));
  }

  lemma NothingBeforeFirst(total: seq<Span> -> Tables, spans: seq<Span>, n: int, cuts: seq<int>, ended: bool)
    requires Scheduled(total, Reaching(total, spans, n), spans, n, cuts, ended) && FlushedBefore(cuts, ended) == 0
    ensures 0 <= FlushedUpTo(cuts, ended, spans) <= |spans|
    ensures spans[0..FlushedUpTo(cuts, ended, spans)] == FirstFlush(spans, cuts)
  {
    if cuts != [] {
      CutsPositive(total, spans, n, cuts);
      if Front(cuts) != [] {
        CutsPositive(total, spans, n, Front(cuts));
      }
    }
  }

  /** The rows of the catalog's tables after a flush that only the connections failed. */
  ghost predicate StoredForCatalog(v: View, w: View, a: Tables) {
    && RowsOf(w.items) == Combine(TakeFields, RowsOf(v.items), a.items)
    && RowsOf(w.comps) == Combine(TakeFields, RowsOf(v.comps), a.comps)
    && RowsOf(w.piis) == Combine(StayFirst, RowsOf(v.piis), a.piis)
  }

  lemma OnlyConnectionsFail(u: View, w: View, a: Tables)
    requires ServesCatalog(u) && TwoWaves(u, w, a, false)
    ensures StoredForCatalog(u, w, a)
  {
    var m :| FirstWave(u, m, a, true) && SecondWave(m, w, a, false);
    WrittenRows(ItemsSchema(), TakeFields, a.items, u.items, m.items);
    WrittenRows(ComponentsSchema(), TakeFields, a.comps, u.comps, m.comps);
    WrittenRows(PiisSchema(), StayFirst, a.piis, m.piis, w.piis);
  }

  lemma NothingFlushedYet(cfg: Config, v: View, u: View, spans: seq<Span>)
    requires v.conns.None? && Flushed(v, u, AccumulatedBy(cfg)(spans), true)
    ensures spans == [] && Snapshot(u) == Snapshot(v) && Present(u) == Present(v)
  {
    AlwaysConnects(cfg, spans);
    ApplyIdentity(Snapshot(v));
  }

  /** Without a table for connections the very first flush fails, after storing all its other rows. */
  lemma FirstFlushFails(cfg: Config, spans: seq<Span>, n: int, v: View, w: View, cuts: seq<int>, ended: bool)
    requires Processed(cfg, spans, n, v, w, cuts, ended, false) && ServesCatalog(v) && v.conns.None?
    ensures StoredForCatalog(v, w, AccumulatedBy(cfg)(FirstFlush(spans, cuts)))
  {
    var total, done, i := AccumulatedBy(cfg), FlushedBefore(cuts, ended), FlushedUpTo(cuts, ended, spans);
    var u :| Flushed(v, u, total(spans[..done]), true) && TwoWaves(u, w, total(spans[done..i]), false);
    NothingFlushedYet(cfg, v, u, spans[..done]);
    assert done == |spans[..done]|;
    NothingBeforeFirst(total, spans, n, cuts, ended);
    OnlyConnectionsFail(u, w, total(FirstFlush(spans, cuts)));
  }

  ghost function ShownBy(t: Tables): CatalogView {
    CatalogOf(t.items, t.comps, t.piis)
  }

  /** A catalog cached under c, if any, shows the tables of v. */
  ghost predicate CacheShows<R>(c: CacheState<CatalogResponse, R>, v: View) {
    c.catalog.Some? ==> ShowsCatalog(c.catalog.value, v)
  }

  ghost predicate CachedFresh<R>(c: CacheState<CatalogResponse, R>, v: View) {
    c.catalog.Some? && CacheShows(c, v)
  }

  lemma SucceededShows<R>(cfg: Config, spans: seq<Span>, v: View, w: View, c: CacheState<CatalogResponse, R>)
    requires Flushed(v, w, AccumulatedBy(cfg)(spans), true) && CacheShows(c, v)
    ensures CacheShows(CacheAfter(c, spans, true), w)
  {
    if spans == [] { ApplyIdentity(Snapshot(v)); }
  }

  lemma FailedShowsIff<R>(cfg: Config, spans: seq<Span>, n: int, v: View, w: View, cuts: seq<int>, ended: bool,
      c: CacheState<CatalogResponse, R>)
    requires Processed(cfg, spans, n, v, w, cuts, ended, false) && ServesCatalog(v) && v.conns.None?
    requires CachedFresh(c, v)
    ensures CacheShows(c, w) <==>
            ShownBy(Apply(Snapshot(v), AccumulatedBy(cfg)(FirstFlush(spans, cuts)))) == ShownBy(Snapshot(v))
  {
    FirstFlushFails(cfg, spans, n, v, w, cuts, ended);
  }

  /**
   * A catalog that was cached and fresh before a call of Process is so after it iff there are no
   * spans, or connections have a table, or the first flush would not show in the catalog: all of this
   * can be told before the call, from the tables, the spans and the threshold.
   */
  lemma CachedCatalogStaysFreshIff<R>(cfg: Config, spans: seq<Span>, n: int, v: View, w: View,
      cuts: seq<int>, ended: bool, ok: bool, c: CacheState<CatalogResponse, R>)
    ensures Processed(cfg, spans, n, v, w, cuts, ended, ok) && ServesCatalog(v) && CachedFresh(c, v) ==>
      (CacheShows(CacheAfter(c, spans, ok), w) <==>
         spans == [] || v.conns.Some?
         || ShownBy(Apply(Snapshot(v), AccumulatedBy(cfg)(FirstFlush(spans, cuts)))) == ShownBy(Snapshot(v)))
  {
    if Processed(cfg, spans, n, v, w, cuts, ended, ok) && ServesCatalog(v) && CachedFresh(c, v) {
      SucceedsIff(cfg, spans, v);
      if ok {
        SucceededShows(cfg, spans, v, w, c);
      } else {
        FailedShowsIff(cfg, spans, n, v, w, cuts, ended, c);
      }
    }
  }
}
