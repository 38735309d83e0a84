/** The generation counter: what stays published, what cannot be published, what hits return. */
module Generations {
  import opened Values
  import opened Responses
  import opened Protocol
  import opened Freshness

  /** d is a later state of cache c: within one generation what was published first stays. */
  ghost predicate Later<C, R>(c: CacheState<C, R>, d: CacheState<C, R>) {
    && c.generation <= d.generation
    && (c.generation == d.generation && c.catalog.Some? ==> d.catalog == c.catalog)
    && (c.generation == d.generation && c.connections.Some? ==> d.connections == c.connections)
  }

  lemma StepLater<C, R>(p: Program<C, R>, a: Action, s: Sys<C, R>)
    ensures Later(s.cache, Exec(p, a, s).cache)
  {
    if a.ByWriter? && a.i in s.writers {
      WriterStepKinds(p, a.w, Local(s.writers[a.i], s.t, s.cache));
    }
  }

  lemma {:induction false} FirstPublishedStays<C, R>(p: Program<C, R>, run: seq<Action>, s: Sys<C, R>)
    ensures Later(s.cache, Run(p, run, s).cache)
  {
    if run != [] {
      FirstPublishedStays(p, run[..|run| - 1], s);
      StepLater(p, run[|run| - 1], Run(p, run[..|run| - 1], s));
    }
  }

  ghost predicate Fetching<C, R>(r: Reader<C, R>) {
    r.FetchingCatalog? || r.FetchingConnections?
  }

  /** A fetch keeps the generation it began with. */
  lemma {:induction false} FetchKeepsGeneration<C, R>(p: Program<C, R>, run: seq<Action>, s: Sys<C, R>, j: nat)
    requires j in s.readers && Fetching(s.readers[j])
    ensures var s' := Run(p, run, s);
      j in s'.readers && (Fetching(s'.readers[j]) ==> s'.readers[j].gen == s.readers[j].gen)
  {
    if run != [] {
      FetchKeepsGeneration(p, run[..|run| - 1], s, j);
    }
  }

  /** A fetch begun before an invalidation never populates the cache after it. */
  lemma StaleFetchPublishesNothing<C, R>(p: Program<C, R>, run: seq<Action>, s: Sys<C, R>, j: nat,
      begin: ReaderAction, end: ReaderAction)
    requires j !in s.readers && (begin.BeginCatalog? || begin.BeginConnections?)
    requires var s' := Run(p, run, Exec(p, ByReader(j, begin), s)); s.cache.generation < s'.cache.generation
    ensures var s' := Run(p, run, Exec(p, ByReader(j, begin), s)); Exec(p, ByReader(j, end), s').cache == s'.cache
  {
    var s1 := Exec(p, ByReader(j, begin), s);
    if Fetching(s1.readers[j]) {
      FetchKeepsGeneration(p, run, s1, j);
    } else {
      HitsStay(p, run, s1, j);
    }
  }

  lemma {:induction false} HitsStay<C, R>(p: Program<C, R>, run: seq<Action>, s: Sys<C, R>, j: nat)
    requires j in s.readers && !Fetching(s.readers[j])
    ensures j in Run(p, run, s).readers && Run(p, run, s).readers[j] == s.readers[j]
  {
    if run != [] {
      HitsStay(p, run[..|run| - 1], s, j);
    }
  }

  /** A hit of generation gen agrees with the cache as long as that generation lasts. */
  ghost predicate HitOk<C, R>(r: Reader<C, R>, c: CacheState<C, R>) {
    && (r.CatalogHit? ==> r.gen <= c.generation && (r.gen == c.generation ==> c.catalog == Some(r.catalog)))
    && (r.ConnectionsHit? ==> r.gen <= c.generation && (r.gen == c.generation ==> c.connections == Some(r.connections)))
  }

  ghost predicate SameHit<C, R>(q: Reader<C, R>, r: Reader<C, R>) {
    && (q.CatalogHit? && r.CatalogHit? && q.gen == r.gen ==> q.catalog == r.catalog)
    && (q.ConnectionsHit? && r.ConnectionsHit? && q.gen == r.gen ==> q.connections == r.connections)
  }

  ghost predicate HitInv<C, R>(s: Sys<C, R>) {
    && (forall j :: j in s.readers ==> HitOk(s.readers[j], s.cache))
    && (forall j, k :: j in s.readers && k in s.readers ==> SameHit(s.readers[j], s.readers[k]))
  }

  /** A step leaves every request alone but one, and a new hit shows what is cached. */
  lemma HitStep<C, R>(p: Program<C, R>, a: Action, s: Sys<C, R>, j: nat)
    requires HitInv(s) && j in Exec(p, a, s).readers
    ensures var s' := Exec(p, a, s);
      || (j in s.readers && s'.readers[j] == s.readers[j])
      || (s'.cache == s.cache && HitOk(s'.readers[j], s'.cache))
      || !(s'.readers[j].CatalogHit? || s'.readers[j].ConnectionsHit?)
  {
  }

  lemma OldHitOk<C, R>(r: Reader<C, R>, c: CacheState<C, R>, d: CacheState<C, R>)
    requires HitOk(r, c) && Later(c, d)
    ensures HitOk(r, d)
  {
  }

  lemma SameHitByCache<C, R>(q: Reader<C, R>, r: Reader<C, R>, c: CacheState<C, R>)
    requires HitOk(q, c) && HitOk(r, c) && (Fresh(q, c) || Fresh(r, c))
    ensures SameHit(q, r)
  {
  }

  /** A hit of the current generation. */
  ghost predicate Fresh<C, R>(r: Reader<C, R>, c: CacheState<C, R>) {
    r.CatalogHit? || r.ConnectionsHit? ==> r.gen == c.generation
  }

  lemma StepKeepsHits<C, R>(p: Program<C, R>, a: Action, s: Sys<C, R>)
    requires HitInv(s)
    ensures HitInv(Exec(p, a, s))
  {
    var s' := Exec(p, a, s);
    StepLater(p, a, s);
    forall j | j in s'.readers
      ensures HitOk(s'.readers[j], s'.cache)
      ensures (j in s.readers && s'.readers[j] == s.readers[j]) || Fresh(s'.readers[j], s'.cache)
    {
      if j in s.readers && s'.readers[j] == s.readers[j] {
        OldHitOk(s.readers[j], s.cache, s'.cache);
      } else {
        HitStep(p, a, s, j);
      }
    }
    forall j, k | j in s'.readers && k in s'.readers
      ensures SameHit(s'.readers[j], s'.readers[k])
    {
      if Fresh(s'.readers[j], s'.cache) || Fresh(s'.readers[k], s'.cache) {
        SameHitByCache(s'.readers[j], s'.readers[k], s'.cache);
      }
    }
  }

  lemma {:induction false} RunKeepsHits<C, R>(p: Program<C, R>, run: seq<Action>, s: Sys<C, R>)
    requires HitInv(s)
    ensures HitInv(Run(p, run, s))
  {
    if run != [] {
      RunKeepsHits(p, run[..|run| - 1], s);
      StepKeepsHits(p, run[|run| - 1], Run(p, run[..|run| - 1], s));
    }
  }

  /** All hits between two invalidations return the same value. */
  lemma HitsAgree<C, R>(p: Program<C, R>, run: seq<Action>, s: Sys<C, R>, j: nat, k: nat)
    requires Initial(p, s) && j in Run(p, run, s).readers && k in Run(p, run, s).readers
    ensures SameHit(Run(p, run, s).readers[j], Run(p, run, s).readers[k])
  {
    RunKeepsHits(p, run, s);
  }

  // ----- what a request is served -----

  /** A request that begins while a response is cached is served exactly that, whatever happens then. */
  lemma CachedIsServed<C, R>(p: Program<C, R>, run: seq<Action>, s: Sys<C, R>, j: nat)
    requires j !in s.readers
    ensures s.cache.catalog.Some? ==>
      var f := Run(p, run, Exec(p, ByReader(j, BeginCatalog), s));
      j in f.readers && f.readers[j] == CatalogHit(s.cache.generation, s.cache.catalog.value)
    ensures s.cache.connections.Some? ==>
      var f := Run(p, run, Exec(p, ByReader(j, BeginConnections), s));
      j in f.readers && f.readers[j] == ConnectionsHit(s.cache.generation, s.cache.connections.value)
  {
    if s.cache.catalog.Some? { HitsStay(p, run, Exec(p, ByReader(j, BeginCatalog), s), j); }
    if s.cache.connections.Some? { HitsStay(p, run, Exec(p, ByReader(j, BeginConnections), s), j); }
  }

  // ----- what the counter counts -----

  /** The call has succeeded, has an invalidator and had spans. */
  ghost predicate Counts(w: Writer) {
    w.phase.Done? && w.wired && w.total > 0
  }

  ghost function Counted(writers: map<nat, Writer>): set<nat> {
    set i | i in writers && Counts(writers[i])
  }

  lemma WriterStepCounts<C, R>(p: Program<C, R>, a: WriterAction, l: Local<C, R>)
    ensures var l' := WriterStep(p, a, l);
      && (Counts(l.w) ==> Counts(l'.w))
      && l'.c.generation == l.c.generation + (if Counts(l'.w) then 1 else 0) - (if Counts(l.w) then 1 else 0)
  {
  }

  lemma CountedNext(writers: map<nat, Writer>, i: nat, w: Writer)
    requires i in writers && (Counts(writers[i]) ==> Counts(w))
    ensures |Counted(writers[i := w])|
         == |Counted(writers)| + (if Counts(w) then 1 else 0) - (if Counts(writers[i]) then 1 else 0)
  {
    assert Counted(writers[i := w]) == Counted(writers) + if Counts(w) && !Counts(writers[i]) then {i} else {};
  }

  lemma StepCounts<C, R>(p: Program<C, R>, a: Action, s: Sys<C, R>)
    ensures var s' := Exec(p, a, s);
      s'.cache.generation - |Counted(s'.writers)| == s.cache.generation - |Counted(s.writers)|
  {
    match a
    case ByWriter(i, act) =>
      if i in s.writers {
        WriterStepCounts(p, act, Local(s.writers[i], s.t, s.cache));
        CountedNext(s.writers, i, WriterStep(p, act, Local(s.writers[i], s.t, s.cache)).w);
      }
    case ByReader(j, act) =>
  }

  lemma {:induction false} RunCounts<C, R>(p: Program<C, R>, run: seq<Action>, s: Sys<C, R>)
    ensures var s' := Run(p, run, s);
      s'.cache.generation - |Counted(s'.writers)| == s.cache.generation - |Counted(s.writers)|
  {
    if run != [] {
      RunCounts(p, run[..|run| - 1], s);
      StepCounts(p, run[|run| - 1], Run(p, run[..|run| - 1], s));
    }
  }

  /** Every successful call with an invalidator and spans invalidates once; nothing else ever does. */
  lemma GenerationCountsCalls<C, R>(p: Program<C, R>, run: seq<Action>, s: Sys<C, R>)
    requires Initial(p, s)
    ensures Run(p, run, s).cache.generation == s.cache.generation + |Counted(Run(p, run, s).writers)|
  {
    RunCounts(p, run, s);
    forall i | i in s.writers
      ensures !Counts(s.writers[i])
    {
      assert Starting(s.writers[i]);
    }
    assert Counted(s.writers) == {};
  }
}
