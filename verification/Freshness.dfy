/** When a cached response must equal a fresh one, over all interleavings of requests and processors. */
module Freshness {
  import opened Values
  import opened Accumulation
  import opened Responses
  import opened Protocol

  // ----- what a step of a writer can do to tables and cache -----

  lemma WriterStepKinds<C, R>(p: Program<C, R>, a: WriterAction, l: Local<C, R>)
    ensures var l' := WriterStep(p, a, l);
      || (l'.t == l.t && l'.c == l.c && l'.w.dirty == l.w.dirty)
      || (l'.w.dirty && l'.c == l.c)
      || (l'.t == l.t && l'.c == Invalidated(l.c))
  {
  }

  // ----- freshness -----

  /** No writer has table writes that it has not followed by an invalidation. */
  ghost predicate Clean(writers: map<nat, Writer>) {
    forall i :: i in writers ==> !writers[i].dirty
  }

  ghost predicate HeldNow(h: Option<Held>, t: Rows) {
    h.Some? ==> h.value.read == t && forall k :: k in h.value.rows ==> k in t && h.value.rows[k] == t[k]
  }

  /** What was read, and what was looked at since, is still what the tables hold. */
  ghost predicate Current(r: Reads, t: Tables) {
    HeldNow(r.items, t.items) && HeldNow(r.comps, t.comps) && HeldNow(r.piis, t.piis) && HeldNow(r.conns, t.conns)
  }

  /** A fetch of this generation has read current tables, unless some writer owes an invalidation. */
  ghost predicate FetchOk<C, R>(r: Reader<C, R>, t: Tables, gen: nat, clean: bool) {
    r.FetchingCatalog? || r.FetchingConnections? ==>
      r.gen <= gen && (r.gen == gen && clean ==> Current(r.got, t))
  }

  ghost predicate FreshInv<C, R>(p: Program<C, R>, s: Sys<C, R>) {
    && (forall j :: j in s.readers ==> FetchOk(s.readers[j], s.t, s.cache.generation, Clean(s.writers)))
    && (Clean(s.writers) ==> CacheFresh(p, s.cache, s.t))
  }

  lemma LookStaysNow(h: Option<Held>, keys: set<string>, t: Rows)
    requires HeldNow(h, t)
    ensures HeldNow(LookAt(h, keys, t), t)
  {
  }

  lemma LookStaysCurrent(a: ReaderAction, r: Reads, t: Tables)
    requires Current(r, t)
    ensures Current(LookStep(a, r, t), t)
  {
    match a
    case LookItems(keys) => LookStaysNow(r.items, keys, t.items);
    case LookComps(keys) => LookStaysNow(r.comps, keys, t.comps);
    case LookPiis(keys) => LookStaysNow(r.piis, keys, t.piis);
    case LookConns(keys) => LookStaysNow(r.conns, keys, t.conns);
    case _ =>
  }

  lemma FetchStaysCurrent(a: ReaderAction, r: Reads, t: Tables, allRead: bool)
    requires Current(r, t)
    ensures Current(FetchStep(a, r, t, allRead), t)
  {
    if allRead { LookStaysCurrent(a, r, t); }
  }

  /** Rows that were all looked at and are current are the table as it is. */
  lemma LookedIsNow(h: Held, t: Rows)
    requires HeldNow(Some(h), t) && Looked(h)
    ensures h == Now(t)
  {
    SameMap(h.rows, t);
  }

  lemma EndCatalogFresh<C, R>(p: Program<C, R>, t: Tables, q: Request<C, R>, clean: bool)
    requires FetchOk(q.r, t, q.c.generation, clean) && (clean ==> CacheFresh(p, q.c, t))
    ensures var q' := EndCatalogStep(p, q);
      && FetchOk(q'.r, t, q'.c.generation, clean) && (clean ==> CacheFresh(p, q'.c, t))
      && q'.c.generation == q.c.generation
  {
    if EndCatalogStep(p, q) != q && q.r.gen == q.c.generation && clean {
      LookedIsNow(q.r.got.items.value, t.items);
      LookedIsNow(q.r.got.comps.value, t.comps);
      LookedIsNow(q.r.got.piis.value, t.piis);
    }
  }

  lemma EndConnectionsFresh<C, R>(p: Program<C, R>, t: Tables, q: Request<C, R>, clean: bool)
    requires FetchOk(q.r, t, q.c.generation, clean) && (clean ==> CacheFresh(p, q.c, t))
    ensures var q' := EndConnectionsStep(p, q);
      && FetchOk(q'.r, t, q'.c.generation, clean) && (clean ==> CacheFresh(p, q'.c, t))
      && q'.c.generation == q.c.generation
  {
    if EndConnectionsStep(p, q).r.GotConnections? && q.r.FetchingConnections? && q.r.gen == q.c.generation && clean {
      LookedIsNow(q.r.got.conns.value, t.conns);
      LookedIsNow(q.r.got.comps.value, t.comps);
    }
  }

  lemma ReaderStepFresh<C, R>(p: Program<C, R>, a: ReaderAction, t: Tables, q: Request<C, R>, clean: bool)
    requires FetchOk(q.r, t, q.c.generation, clean) && (clean ==> CacheFresh(p, q.c, t))
    ensures var q' := ReaderStep(p, a, t, q);
      && FetchOk(q'.r, t, q'.c.generation, clean) && (clean ==> CacheFresh(p, q'.c, t))
      && q'.c.generation == q.c.generation
  {
    if a.EndCatalog? {
      EndCatalogFresh(p, t, q, clean);
    } else if a.EndConnections? {
      EndConnectionsFresh(p, t, q, clean);
    } else if (q.r.FetchingCatalog? || q.r.FetchingConnections?) && q.r.gen == q.c.generation && clean {
      FetchStaysCurrent(a, q.r.got, t, CatalogRead(q.r.got));
      FetchStaysCurrent(a, q.r.got, t, ConnectionsRead(q.r.got));
    }
  }

  lemma CleanSame(writers: map<nat, Writer>, i: nat, w: Writer)
    requires i in writers && w.dirty == writers[i].dirty
    ensures Clean(writers[i := w]) <==> Clean(writers)
  {
    if Clean(writers[i := w]) {
      forall k | k in writers
        ensures !writers[k].dirty
      {
        assert k in writers[i := w];
      }
    }
  }

  lemma WriterKeepsFresh<C, R>(p: Program<C, R>, i: nat, a: WriterAction, s: Sys<C, R>)
    requires FreshInv(p, s) && i in s.writers
    ensures FreshInv(p, Exec(p, ByWriter(i, a), s))
  {
    var l := Local(s.writers[i], s.t, s.cache);
    var l' := WriterStep(p, a, l);
    var s' := Exec(p, ByWriter(i, a), s);
    WriterStepKinds(p, a, l);
    assert s'.writers[i] == l'.w;
    if l'.t == l.t && l'.c == l.c && l'.w.dirty == l.w.dirty {
      CleanSame(s.writers, i, l'.w);
    } else if l'.w.dirty && l'.c == l.c {
      assert !Clean(s'.writers);
    }
  }

  lemma ReaderKeepsFresh<C, R>(p: Program<C, R>, j: nat, a: ReaderAction, s: Sys<C, R>)
    requires FreshInv(p, s)
    ensures FreshInv(p, Exec(p, ByReader(j, a), s))
  {
    if j in s.readers && !a.BeginCatalog? && !a.BeginConnections? {
      ReaderStepFresh(p, a, s.t, Request(s.readers[j], s.cache), Clean(s.writers));
    }
  }

  lemma {:induction false} RunKeepsFresh<C, R>(p: Program<C, R>, run: seq<Action>, s: Sys<C, R>)
    requires FreshInv(p, s)
    ensures FreshInv(p, Run(p, run, s))
  {
    if run != [] {
      RunKeepsFresh(p, run[..|run| - 1], s);
      var s1 := Run(p, run[..|run| - 1], s);
      match run[|run| - 1]
      case ByWriter(i, a) => if i in s1.writers { WriterKeepsFresh(p, i, a, s1); }
      case ByReader(j, a) => ReaderKeepsFresh(p, j, a, s1);
    }
  }

  /**
   * In every reachable state in which no writer owes an invalidation, whatever is cached is what
   * the tables would yield now, although a request reads its tables at different moments.
   */
  lemma CachedIsFresh<C, R>(p: Program<C, R>, run: seq<Action>, s: Sys<C, R>)
    requires Initial(p, s)
    ensures Clean(Run(p, run, s).writers) ==> CacheFresh(p, Run(p, run, s).cache, Run(p, run, s).t)
  {
    RunKeepsFresh(p, run, s);
  }

  // ----- which writers can owe an invalidation -----

  /** A writer without spans never writes; a writer that ended well and can invalidate owes nothing. */
  ghost predicate GuardOk(w: Writer) {
    && (w.total == 0 ==> w.todo == [] && w.acc == Empty() && !w.dirty)
    && (w.phase.Done? && w.wired ==> !w.dirty)
  }

  lemma WriterStepGuard<C, R>(p: Program<C, R>, a: WriterAction, l: Local<C, R>)
    requires GuardOk(l.w)
    ensures GuardOk(WriterStep(p, a, l).w)
  {
  }

  ghost predicate GuardInv(writers: map<nat, Writer>) {
    forall i :: i in writers ==> GuardOk(writers[i])
  }

  lemma {:induction false} RunKeepsGuard<C, R>(p: Program<C, R>, run: seq<Action>, s: Sys<C, R>)
    requires GuardInv(s.writers)
    ensures GuardInv(Run(p, run, s).writers)
  {
    if run != [] {
      RunKeepsGuard(p, run[..|run| - 1], s);
      var s1 := Run(p, run[..|run| - 1], s);
      match run[|run| - 1]
      case ByWriter(i, a) =>
        if i in s1.writers { WriterStepGuard(p, a, Local(s1.writers[i], s1.t, s1.cache)); }
      case ByReader(j, a) =>
    }
  }

  /** Skipping the invalidation of a call without spans never skips one that is owed. */
  lemma GuardSkipsNothing<C, R>(p: Program<C, R>, run: seq<Action>, s: Sys<C, R>, i: nat)
    requires Initial(p, s) && i in Run(p, run, s).writers
    ensures Run(p, run, s).writers[i].dirty ==> Run(p, run, s).writers[i].total > 0
  {
    RunKeepsGuard(p, run, s);
  }

  /** Once every call of Process has succeeded, each with an invalidator, the cache is fresh. */
  lemma FreshWhenAllDone<C, R>(p: Program<C, R>, run: seq<Action>, s: Sys<C, R>)
    requires Initial(p, s)
    requires forall i :: i in Run(p, run, s).writers ==>
      Run(p, run, s).writers[i].phase.Done? && Run(p, run, s).writers[i].wired
    ensures CacheFresh(p, Run(p, run, s).cache, Run(p, run, s).t)
  {
    RunKeepsGuard(p, run, s);
    CachedIsFresh(p, run, s);
  }
}
