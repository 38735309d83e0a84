/** What a call of Process that stops on an error leaves in the cache. */
module FailedCalls {
  import opened Values
  import opened Spans
  import opened Accumulation
  import opened Responses
  import opened Protocol
  import opened Runs

  // ----- one call and nothing else -----

  /** A run of writer i alone. */
  ghost predicate AllBy(run: seq<Action>, i: nat) {
    forall k :: 0 <= k < |run| ==> run[k].ByWriter? && run[k].i == i
  }

  /** A wired writer since it started with tables t and cache c: it touches the cache only to finish. */
  ghost predicate SinceStart<C, R>(t: Tables, c: CacheState<C, R>, l: Local<C, R>) {
    && l.w.wired
    && l.c == (if l.w.phase.Done? && l.w.total > 0 then Invalidated(c) else c)
    && (l.w.total == 0 ==> l.w.todo == [] && l.w.acc == Empty() && l.t == t)
  }

  lemma WriterStepSince<C, R>(p: Program<C, R>, a: WriterAction, t: Tables, c: CacheState<C, R>, l: Local<C, R>)
    requires SinceStart(t, c, l)
    ensures SinceStart(t, c, WriterStep(p, a, l))
  {
  }

  lemma {:induction false} RunSince<C, R>(p: Program<C, R>, run: seq<Action>, s: Sys<C, R>, i: nat)
    requires AllBy(run, i) && i in s.writers && Starting(s.writers[i]) && s.writers[i].wired
    ensures var f := Run(p, run, s);
      && f.readers == s.readers && i in f.writers
      && SinceStart(s.t, s.cache, Local(f.writers[i], f.t, f.cache))
  {
    if run != [] {
      var f := Run(p, run[..|run| - 1], s);
      RunSince(p, run[..|run| - 1], s, i);
      assert run[|run| - 1].ByWriter?;
      WriterStepSince(p, run[|run| - 1].w, s.t, s.cache, Local(f.writers[i], f.t, f.cache));
    }
  }

  ghost predicate Ended(w: Writer) {
    w.phase.Done? || w.phase.Stopped?
  }

  /**
   * Whatever the spans, the threshold, the order of the writes and the failures: once the call has
   * ended, a catalog that was cached before it is fresh iff the call succeeded or its writes do not
   * show in the catalog.
   */
  lemma CatalogFreshIff<C, R>(p: Program<C, R>, run: seq<Action>, s: Sys<C, R>, i: nat)
    requires AllBy(run, i) && i in s.writers && Starting(s.writers[i]) && s.writers[i].wired
    requires s.cache.catalog == Some(CatalogNow(p, s.t))
    ensures var f := Run(p, run, s);
      i in f.writers && (Ended(f.writers[i]) ==>
        (CatalogFresh(p, f.cache, f.t) <==> f.writers[i].phase.Done? || CatalogNow(p, f.t) == CatalogNow(p, s.t)))
  {
    RunSince(p, run, s, i);
  }

  /** The same for cached connections. */
  lemma ConnectionsFreshIff<C, R>(p: Program<C, R>, run: seq<Action>, s: Sys<C, R>, i: nat)
    requires AllBy(run, i) && i in s.writers && Starting(s.writers[i]) && s.writers[i].wired
    requires s.cache.connections == Some(p.connections(s.t.conns, s.t.comps))
    ensures var f := Run(p, run, s);
      i in f.writers && (Ended(f.writers[i]) ==>
        (ConnectionsFresh(p, f.cache, f.t) <==>
           f.writers[i].phase.Done? || p.connections(f.t.conns, f.t.comps) == p.connections(s.t.conns, s.t.comps)))
  {
    RunSince(p, run, s, i);
  }

  // ----- a request that fills the cache -----

  /** Request j finds nothing in the cache and reads the three tables. */
  function ReadRun(j: nat): seq<Action> {
    [] + [ByReader(j, BeginCatalog)] + [ByReader(j, ReadItems)] + [ByReader(j, ReadComps)] + [ByReader(j, ReadPiis)]
  }

  /** Request j looks at all rows that it read. */
  function LookRun(j: nat, t: Tables): seq<Action> {
    [] + [ByReader(j, LookItems(t.items.Keys))] + [ByReader(j, LookComps(t.comps.Keys))]
      + [ByReader(j, LookPiis(t.piis.Keys))]
  }

  function FillRun(j: nat, t: Tables): seq<Action> {
    ReadRun(j) + LookRun(j, t) + [ByReader(j, EndCatalog)]
  }

  ghost function Unseen(t: Rows): Option<Held> {
    Some(Held(t, map[]))
  }

  lemma LooksAtAll(t: Rows)
    ensures LookAt(Unseen(t), t.Keys, t) == Some(Now(t))
  {
    SameMap(LookAt(Unseen(t), t.Keys, t).value.rows, t);
  }

  /** Only request j has moved, and this is how far. */
  ghost predicate OnlyReader<C, R>(s: Sys<C, R>, f: Sys<C, R>, j: nat, r: Reader<C, R>) {
    f.t == s.t && f.cache == s.cache && f.writers == s.writers && j in f.readers && f.readers[j] == r
  }

  /** The fresh catalog is cached and nothing else that matters to a writer has changed. */
  ghost predicate Filled<C, R>(p: Program<C, R>, s: Sys<C, R>, f: Sys<C, R>) {
    f.t == s.t && f.cache == s.cache.(catalog := Some(CatalogNow(p, s.t))) && f.writers == s.writers
  }

  lemma ReadsAll<C, R>(p: Program<C, R>, s: Sys<C, R>, j: nat)
    requires j !in s.readers && s.cache.catalog.None?
    ensures OnlyReader(s, Run(p, ReadRun(j), s), j, FetchingCatalog(s.cache.generation,
      Reads(Unseen(s.t.items), Unseen(s.t.comps), Unseen(s.t.piis), None)))
  {
    var a0: seq<Action> := [];
    var a1 := a0 + [ByReader(j, BeginCatalog)];
    var a2 := a1 + [ByReader(j, ReadItems)];
    var a3 := a2 + [ByReader(j, ReadComps)];
    RunNext(p, a0, ByReader(j, BeginCatalog), s);
    RunNext(p, a1, ByReader(j, ReadItems), s);
    RunNext(p, a2, ByReader(j, ReadComps), s);
    RunNext(p, a3, ByReader(j, ReadPiis), s);
  }

  /** One more look moves the request and nothing else. */
  lemma LookNext<C, R>(p: Program<C, R>, run: seq<Action>, s: Sys<C, R>, j: nat, a: ReaderAction, gen: nat, got: Reads)
    requires OnlyReader(s, Run(p, run, s), j, FetchingCatalog(gen, got)) && CatalogRead(got)
    requires a.LookItems? || a.LookComps? || a.LookPiis?
    ensures OnlyReader(s, Run(p, run + [ByReader(j, a)], s), j, FetchingCatalog(gen, LookStep(a, got, s.t)))
  {
    RunNext(p, run, ByReader(j, a), s);
  }

  lemma Looks<C, R>(p: Program<C, R>, s: Sys<C, R>, j: nat, gen: nat)
    requires j in s.readers
    requires s.readers[j] == FetchingCatalog(gen, Reads(Unseen(s.t.items), Unseen(s.t.comps), Unseen(s.t.piis), None))
    ensures OnlyReader(s, Run(p, LookRun(j, s.t), s), j, FetchingCatalog(gen,
      Reads(Some(Now(s.t.items)), Some(Now(s.t.comps)), Some(Now(s.t.piis)), None)))
  {
    LooksAtAll(s.t.items);
    LooksAtAll(s.t.comps);
    LooksAtAll(s.t.piis);
    var l0, l1, l2 := LookItems(s.t.items.Keys), LookComps(s.t.comps.Keys), LookPiis(s.t.piis.Keys);
    var g0 := s.readers[j].got;
    var g1 := g0.(items := Some(Now(s.t.items)));
    var g2 := g1.(comps := Some(Now(s.t.comps)));
    LookNext(p, [], s, j, l0, gen, g0);
    LookNext(p, [] + [ByReader(j, l0)], s, j, l1, gen, g1);
    LookNext(p, [] + [ByReader(j, l0)] + [ByReader(j, l1)], s, j, l2, gen, g2);
  }

  lemma Publishes<C, R>(p: Program<C, R>, s: Sys<C, R>, j: nat)
    requires j in s.readers && s.cache.catalog.None?
    requires s.readers[j] == FetchingCatalog(s.cache.generation,
      Reads(Some(Now(s.t.items)), Some(Now(s.t.comps)), Some(Now(s.t.piis)), None))
    ensures Filled(p, s, Exec(p, ByReader(j, EndCatalog), s))
  {
  }

  /** From an empty cache a request on its own caches the fresh catalog. */
  lemma Fills<C, R>(p: Program<C, R>, s: Sys<C, R>, j: nat)
    requires j !in s.readers && s.cache.catalog.None?
    ensures Filled(p, s, Run(p, FillRun(j, s.t), s))
  {
    ReadsAll(p, s, j);
    var s1 := Run(p, ReadRun(j), s);
    Looks(p, s1, j, s.cache.generation);
    RunConcat(p, ReadRun(j), LookRun(j, s.t), s);
    RunNext(p, ReadRun(j) + LookRun(j, s.t), ByReader(j, EndCatalog), s);
    Publishes(p, Run(p, LookRun(j, s.t), s1), j);
  }

  // ----- a call whose connections are refused -----

  /** Writer i takes its one span and stores everything but the connections, which are refused. */
  function RefusedRun(i: nat): seq<Action> {
    StartRun(i) + StoreRun(i) + RefuseRun(i)
  }

  function RefuseRun(i: nat): seq<Action> {
    [] + [ByWriter(i, WritePiis(true))] + [ByWriter(i, WriteConns(false))] + [ByWriter(i, Barrier)]
  }

  lemma RefusesConnections<C, R>(p: Program<C, R>, s: Sys<C, R>, i: nat)
    requires i in s.writers && s.writers[i].phase == Wave2(Pending, Pending) && s.writers[i].acc.conns != map[]
    ensures var f := Run(p, RefuseRun(i), s);
      && f.cache == s.cache && i in f.writers && f.writers[i].phase == Stopped(false)
      && f.t == s.t.(piis := After(StayFirst, s.t.piis, s.writers[i].acc.piis, true))
  {
    var a0: seq<Action> := [];
    var a1 := a0 + [ByWriter(i, WritePiis(true))];
    var a2 := a1 + [ByWriter(i, WriteConns(false))];
    RunNext(p, a0, ByWriter(i, WritePiis(true)), s);
    RunNext(p, a1, ByWriter(i, WriteConns(false)), s);
    RunNext(p, a2, ByWriter(i, Barrier), s);
  }

  /** The call ends with an error, three of its four tables written. */
  lemma Refused<C, R>(p: Program<C, R>, s: Sys<C, R>, i: nat, x: Span)
    requires i in s.writers && s.writers[i] == NewWriter([x], 0, true) && p.delta(x).conns != map[]
    ensures var d := p.delta(x); var f := Run(p, RefusedRun(i), s);
      && f.cache == s.cache && i in f.writers && f.writers[i].phase == Stopped(false)
      && f.t == Tables(After(TakeFields, s.t.items, d.items, true), After(TakeFields, s.t.comps, d.comps, true),
                       After(StayFirst, s.t.piis, d.piis, true), s.t.conns)
  {
    StartsFlush(p, s, i, x);
    var s1 := Run(p, StartRun(i), s);
    StoresFirstWave(p, s1, i);
    var s2 := Run(p, StoreRun(i), s1);
    RefusesConnections(p, s2, i);
    RunConcat(p, StartRun(i), StoreRun(i), s);
    RunConcat(p, StartRun(i) + StoreRun(i), RefuseRun(i), s);
  }

  /**
   * A call of Process that stops on an error still owes an invalidation: a request fills the cache,
   * the connections of the call are refused, the call ends, and the cached catalog is the one from
   * before its writes.
   */
  lemma FailedCallLeavesStale<C, R>(p: Program<C, R>, s: Sys<C, R>, i: nat, j: nat, x: Span)
    requires j !in s.readers && s.cache.catalog.None?
    requires i in s.writers && s.writers[i] == NewWriter([x], 0, true) && p.delta(x).conns != map[]
    ensures var d := p.delta(x); var f := Run(p, FillRun(j, s.t) + RefusedRun(i), s);
      && i in f.writers && f.writers[i].phase == Stopped(false)
      && f.cache.catalog == Some(CatalogNow(p, s.t))
      && f.t == Tables(After(TakeFields, s.t.items, d.items, true), After(TakeFields, s.t.comps, d.comps, true),
                       After(StayFirst, s.t.piis, d.piis, true), s.t.conns)
  {
    Fills(p, s, j);
    Refused(p, Run(p, FillRun(j, s.t), s), i, x);
    RunConcat(p, FillRun(j, s.t), RefusedRun(i), s);
  }
}
