/** The interleaved system with the real span contributions and the real responses. */
module Service {
  import opened Values
  import opened Spans
  import opened Accumulation
  import opened Integrity
  import opened Responses
  import opened Catalog
  import opened Protocol
  import opened Freshness
  import opened FailedCalls
  import opened References
  import opened Lookups
  import opened Sizes
  import opened Pacing

  // ----- the real program -----

  /** A row as a request shows it that grouped it by what it was when it was read. */
  function Regrouped(row: Record, read: Record, field: string): Record {
    if field in read then row[field := read[field]] else row - {field}
  }

  /** Rows as a request shows them: contents as looked at, groups as read. */
  function Grouping(h: Held, field: string): Rows {
    map k | k in h.rows && k in h.read :: Regrouped(h.rows[k], h.read[k], field)
  }

  ghost function ProgramOf(cfg: Config): Program<CatalogView, multiset<Connection>> {
    Program(DeltaOf(cfg),
            (items: Held, comps: Held, piis: Held) =>
              CatalogOf(items.rows, Grouping(comps, "app_item_name"), Grouping(piis, "component_id")),
            (conns, comps) => ConnectionsOf(conns, comps))
  }

  lemma RegroupedAgain(row: Record, field: string)
    ensures Regrouped(row, row, field) == row
  {
  }

  lemma GroupingNow(t: Rows, field: string)
    ensures Grouping(Now(t), field) == t
  {
    forall k | k in t
      ensures Grouping(Now(t), field)[k] == t[k]
    {
      RegroupedAgain(t[k], field);
    }
    SameMap(Grouping(Now(t), field), t);
  }

  /** What the real program would answer now is the catalog of the tables. */
  lemma CatalogNowIs(cfg: Config, t: Tables)
    ensures CatalogNow(ProgramOf(cfg), t) == CatalogOf(t.items, t.comps, t.piis)
  {
    GroupingNow(t.comps, "app_item_name");
    GroupingNow(t.piis, "component_id");
  }

  // ----- rows are well-formed in every reachable state -----

  ghost predicate LocalRows<C, R>(l: Local<C, R>) {
    WellFormed(l.t) && WellFormed(l.w.acc)
  }

  lemma EmptyWellFormed()
    ensures WellFormed(Empty())
  {
  }

  lemma WriterKeepsRows<C, R>(p: Program<C, R>, a: WriterAction, l: Local<C, R>)
    requires LocalRows(l) && AllWellFormed(p.delta)
    ensures LocalRows(WriterStep(p, a, l))
  {
    match a
    case TakeSpan => if l.w.todo != [] { ApplyWellFormed(l.w.acc, p.delta(l.w.todo[0])); }
    case Barrier => BarrierKeepsRows(l.w);
    case FinalFlush =>
    case Finish =>
    case _ => WriteKeepsRows(a, l);
  }

  lemma BarrierHolds(w: Writer)
    ensures PastBarrier(w).acc == w.acc || PastBarrier(w).acc == Empty()
  {
  }

  lemma BarrierKeepsRows(w: Writer)
    requires WellFormed(w.acc)
    ensures WellFormed(PastBarrier(w).acc)
  {
    BarrierHolds(w);
    if PastBarrier(w).acc != w.acc {
      EmptyWellFormed();
    }
  }

  lemma WriteKeepsRows<C, R>(a: WriterAction, l: Local<C, R>)
    requires LocalRows(l)
    ensures LocalRows(WriteStep(a, l))
  {
    ApplyWellFormed(l.t, l.w.acc);
  }

  ghost predicate RowsInv<C, R>(s: Sys<C, R>) {
    WellFormed(s.t) && forall i :: i in s.writers ==> WellFormed(s.writers[i].acc)
  }

  lemma {:induction false} RunKeepsRows<C, R>(p: Program<C, R>, run: seq<Action>, s: Sys<C, R>)
    requires RowsInv(s) && AllWellFormed(p.delta)
    ensures RowsInv(Run(p, run, s))
  {
    if run != [] {
      RunKeepsRows(p, run[..|run| - 1], s);
      var s1 := Run(p, run[..|run| - 1], s);
      match run[|run| - 1]
      case ByWriter(i, a) =>
        if i in s1.writers { WriterKeepsRows(p, a, Local(s1.writers[i], s1.t, s1.cache)); }
      case ByReader(j, a) =>
    }
  }

  /** Rows written by any interleaving of processors are well-formed, so responses are determined by them. */
  lemma RowsStayWellFormed(cfg: Config, run: seq<Action>, s: Sys<CatalogView, multiset<Connection>>)
    requires Initial(ProgramOf(cfg), s) && WellFormed(s.t)
    ensures WellFormed(Run(ProgramOf(cfg), run, s).t)
  {
    DeltasWellFormed(cfg);
    EmptyWellFormed();
    assert forall i :: i in s.writers ==> Starting(s.writers[i]);
    RunKeepsRows(ProgramOf(cfg), run, s);
  }

  // ----- the protocol results for the real program -----

  /** References hold in every reachable state of processors run over real spans. */
  lemma ServiceReferences(cfg: Config, run: seq<Action>, s: Sys<CatalogView, multiset<Connection>>)
    requires Initial(ProgramOf(cfg), s) && Closed(s.t)
    ensures var s' := Run(ProgramOf(cfg), run, s);
      && Attached(s'.t.comps, s'.t.piis) && Linked(s'.t.items, s'.t.comps, s'.t.conns)
      && ((forall i :: i in s'.writers ==> !Unsettled(s'.writers[i])) ==> Closed(s'.t))
  {
    DeltasClosed(cfg);
    ReferencesHold(ProgramOf(cfg), run, s);
  }

  /**
   * Once all calls of Process have ended well, a cached catalog lists every stored component once
   * and every stored finding once, however requests and processors were interleaved.
   */
  lemma CachedCatalogConserves(cfg: Config, run: seq<Action>, s: Sys<CatalogView, multiset<Connection>>)
    requires Initial(ProgramOf(cfg), s) && Closed(s.t) && WellFormed(s.t)
    requires var s' := Run(ProgramOf(cfg), run, s);
      && s'.cache.catalog.Some?
      && forall i :: i in s'.writers ==> s'.writers[i].phase.Done? && s'.writers[i].wired
    ensures var s' := Run(ProgramOf(cfg), run, s);
      && s'.cache.catalog.value == CatalogOf(s'.t.items, s'.t.comps, s'.t.piis)
      && |ComponentsIn(s'.cache.catalog.value)| == |s'.t.comps| && |PiisIn(s'.cache.catalog.value)| == |s'.t.piis|
  {
    var s' := Run(ProgramOf(cfg), run, s);
    CatalogNowIs(cfg, s'.t);
    FreshWhenAllDone(ProgramOf(cfg), run, s);
    RowsStayWellFormed(cfg, run, s);
    ServiceReferences(cfg, run, s);
    ComponentsConserved(s'.t.items, s'.t.comps, s'.t.piis);
    PiisConserved(s'.t.items, s'.t.comps, s'.t.piis);
  }

  /**
   * After a call whose connections were refused, an app item that the call stored is missing from
   * the cached catalog.
   */
  lemma FailedCallHidesItem(cfg: Config, s: Sys<CatalogView, multiset<Connection>>, i: nat, j: nat, x: Span)
    requires j !in s.readers && s.cache.catalog.None? && i in s.writers && s.writers[i] == NewWriter([x], 0, true)
    requires Source(x) !in s.t.items
    ensures var f := Run(ProgramOf(cfg), FillRun(j, s.t) + RefusedRun(i), s);
      && i in f.writers && f.writers[i].phase.Stopped?
      && f.cache.catalog.Some? && Source(x) !in f.cache.catalog.value
      && Source(x) in CatalogOf(f.t.items, f.t.comps, f.t.piis)
  {
    var d := DeltaOf(cfg)(x);
    assert Source(x) in d.items && ConnectionId(x) in d.conns;
    CatalogNowIs(cfg, s.t);
    FailedCallLeavesStale(ProgramOf(cfg), s, i, j, x);
  }

  /**
   * In every reachable state of processors run over real spans: assembling the connections fails iff
   * a connection that was looked at lists a component stored since the components were read.
   */
  lemma ServiceNotFoundIff(cfg: Config, run: seq<Action>, s: Sys<CatalogView, multiset<Connection>>, j: nat)
    requires Initial(ProgramOf(cfg), s) && Closed(s.t) && Assembling(Run(ProgramOf(cfg), run, s), j)
    ensures var s' := Run(ProgramOf(cfg), run, s); var f := Exec(ProgramOf(cfg), ByReader(j, EndConnections), s');
      f.readers[j] == NotFound <==> ListsNewComponent(s'.readers[j].got, s'.t.comps)
  {
    DeltasClosed(cfg);
    NotFoundIff(ProgramOf(cfg), run, s, j);
  }

  lemma ConnectionOfSpan(cfg: Config, x: Span)
    ensures var d := DeltaOf(cfg)(x);
      ConnectionId(x) in d.conns && Ids(d.conns[ConnectionId(x)]) == [ComponentId(cfg, x)]
  {
  }

  /**
   * A stored connection that gains a component between the reads and the assembly makes the request
   * fail, whichever of the two tables was read first.
   */
  lemma LiveConnectionFails(cfg: Config, s: Sys<CatalogView, multiset<Connection>>, i: nat, j: nat, x: Span, compsFirst: bool)
    requires j !in s.readers && s.cache.connections.None?
    requires i in s.writers && s.writers[i] == NewWriter([x], 0, true)
    requires ConnectionId(x) in s.t.conns && ComponentId(cfg, x) !in s.t.comps
    ensures var f := Run(ProgramOf(cfg), LiveRun(i, j, ConnectionId(x), compsFirst), s);
      j in f.readers && f.readers[j] == NotFound
  {
    ConnectionOfSpan(cfg, x);
    LiveConnectionCanFail(ProgramOf(cfg), s, i, j, x, ConnectionId(x), ComponentId(cfg, x), compsFirst);
  }

  /** A request that reads components before connections can miss a component of a correct database. */
  lemma ComponentsFirstCanFail(cfg: Config, s: Sys<CatalogView, multiset<Connection>>, i: nat, j: nat, x: Span)
    requires j !in s.readers && s.cache.connections.None? && s.t == Empty()
    requires i in s.writers && s.writers[i] == NewWriter([x], 0, true)
    ensures var f := Run(ProgramOf(cfg), LateConnectionsRun(i, j, ConnectionId(x)), s);
      j in f.readers && f.readers[j] == NotFound
  {
    ConnectionOfSpan(cfg, x);
    ComponentsReadFirstCanFail(ProgramOf(cfg), s, i, j, x, ConnectionId(x), ComponentId(cfg, x));
  }

  /** The pace of every processor in every run over real spans. */
  lemma ServicePace(cfg: Config, run: seq<Action>, s: Sys<CatalogView, multiset<Connection>>, i: nat)
    requires Initial(ProgramOf(cfg), s) && i in Run(ProgramOf(cfg), run, s).writers
    ensures var w := Run(ProgramOf(cfg), run, s).writers[i];
      && SizesOk(w, |cfg.detectors|)
      && if w.threshold > 0 then w.flushes * w.threshold <= Max(2, |cfg.detectors|) * w.total else w.flushes == 0
  {
    DeltasSmall(cfg);
    PaceHolds(ProgramOf(cfg), run, s, |cfg.detectors|, i);
  }
}
