/**
 * Processors and API requests running at the same time, as a system of interleaved steps.  A step
 * that is not enabled changes nothing, so every list of actions is a run.
 */
module Protocol {
  import opened Values
  import opened Combining
  import opened Spans
  import opened Accumulation
  import opened Sizes
  import opened Catalog
  import opened Responses

  /**
   * A table in the hands of a request: the table as it was read, which fixes what the request refers
   * to and how it is grouped, and the contents of the rows it has looked at since.
   */
  datatype Held = Held(read: Rows, rows: Rows)

  /** The table read and looked at in one moment. */
  function Now(t: Rows): Held {
    Held(t, t)
  }

  /** What a span contributes, and what the two requests compute from what they hold. */
  datatype Program<C, R> = Program(
    delta: Span -> Tables,
    catalog: (Held, Held, Held) -> C,
    connections: (Rows, Rows) -> R)

  // ----- one call of Process -----

  datatype Write = Pending | Written | Refused

  datatype Phase =
    | Filling
    | Wave1(items: Write, comps: Write)
    | Wave2(piis: Write, conns: Write)
    | Owing
    | Done
    | Stopped(unowned: bool)

  /**
   * last: the final flush has begun; dirty: has written to a table and not invalidated the cache
   * since; flushes: how often a threshold flush has begun; total: how many spans it was given.
   */
  datatype Writer = Writer(
    todo: seq<Span>, acc: Tables, phase: Phase, last: bool, dirty: bool, flushes: nat,
    total: nat, threshold: int, wired: bool)

  datatype WriterAction =
    | TakeSpan
    | FinalFlush
    | WriteItems(ok: bool)
    | WriteComps(ok: bool)
    | WritePiis(ok: bool)
    | WriteConns(ok: bool)
    | Barrier
    | Finish

  /** What a step of a writer can see and change. */
  datatype Local<C, R> = Local(w: Writer, t: Tables, c: CacheState<C, R>)

  /** The writer with its next span accumulated to acc. */
  function Taken(w: Writer, acc: Tables): Writer
    requires w.todo != []
  {
    var full := w.threshold > 0 && Largest(acc) >= w.threshold;
    w.(todo := w.todo[1..], acc := acc, phase := if full then Wave1(Pending, Pending) else Filling,
       flushes := if full then w.flushes + 1 else w.flushes)
  }

  ghost function TakeSpanStep<C, R>(p: Program<C, R>, l: Local<C, R>): Local<C, R> {
    if l.w.phase.Filling? && l.w.todo != [] then l.(w := Taken(l.w, Apply(l.w.acc, p.delta(l.w.todo[0])))) else l
  }

  ghost function FinalFlushStep<C, R>(l: Local<C, R>): Local<C, R> {
    if l.w.phase.Filling? && l.w.todo == []
    then l.(w := l.w.(phase := Wave1(Pending, Pending), last := true))
    else l
  }

  /** The outcome of a write of these rows: nothing to write always succeeds. */
  ghost function Tried(rows: Rows, ok: bool): Write {
    if ok || rows == map[] then Written else Refused
  }

  /** The rows of a table after a write was tried. */
  ghost function After(f: (Record, Record) -> Record, t: Rows, rows: Rows, ok: bool): Rows {
    if ok && rows != map[] then Combine(f, t, rows) else t
  }

  ghost function Marked(w: Writer, rows: Rows, ok: bool): bool {
    w.dirty || (ok && rows != map[])
  }

  ghost function WriteStep<C, R>(a: WriterAction, l: Local<C, R>): Local<C, R> {
    var w, t := l.w, l.t;
    match a
    case WriteItems(ok) =>
      if !(w.phase.Wave1? && w.phase.items.Pending?) then l else
      Local(w.(phase := w.phase.(items := Tried(w.acc.items, ok)), dirty := Marked(w, w.acc.items, ok)),
            t.(items := After(TakeFields, t.items, w.acc.items, ok)), l.c)
    case WriteComps(ok) =>
      if !(w.phase.Wave1? && w.phase.comps.Pending?) then l else
      Local(w.(phase := w.phase.(comps := Tried(w.acc.comps, ok)), dirty := Marked(w, w.acc.comps, ok)),
            t.(comps := After(TakeFields, t.comps, w.acc.comps, ok)), l.c)
    case WritePiis(ok) =>
      if !(w.phase.Wave2? && w.phase.piis.Pending?) then l else
      Local(w.(phase := w.phase.(piis := Tried(w.acc.piis, ok)), dirty := Marked(w, w.acc.piis, ok)),
            t.(piis := After(StayFirst, t.piis, w.acc.piis, ok)), l.c)
    case WriteConns(ok) =>
      if !(w.phase.Wave2? && w.phase.conns.Pending?) then l else
      Local(w.(phase := w.phase.(conns := Tried(w.acc.conns, ok)), dirty := Marked(w, w.acc.conns, ok)),
            t.(conns := After(JoinIds, t.conns, w.acc.conns, ok)), l.c)
    case _ => l
  }

  /** Both writes of a wave have ended: go on, or give up if one failed. */
  ghost function PastBarrier(w: Writer): Writer {
    match w.phase
    case Wave1(i, c) =>
      if i.Pending? || c.Pending? then w
      else if i.Written? && c.Written? then w.(phase := Wave2(Pending, Pending))
      else w.(phase := Stopped(c.Written? && !i.Written?))
    case Wave2(i, c) =>
      if i.Pending? || c.Pending? then w
      else if !(i.Written? && c.Written?) then w.(phase := Stopped(false))
      else if w.last then w.(phase := Owing)
      else w.(phase := Filling, acc := Empty())
    case _ => w
  }

  /** A barrier changes the phase, and empties the accumulator when the writer fills it again. */
  lemma BarrierShape(w: Writer)
    ensures var v := PastBarrier(w);
      && v == w.(phase := v.phase, acc := v.acc)
      && (if v.acc == w.acc then v.phase.Filling? ==> w.phase.Filling? || w.acc == Empty()
          else v.acc == Empty() && v.phase.Filling?)
      && (v.phase.Wave1? || v.phase.Wave2? ==> v.acc == w.acc && (w.phase.Wave1? || w.phase.Wave2?))
  {
  }

  ghost function FinishStep<C, R>(l: Local<C, R>): Local<C, R> {
    if !l.w.phase.Owing? then l
    else if l.w.wired && l.w.total > 0 then Local(l.w.(phase := Done, dirty := false), l.t, Invalidated(l.c))
    else l.(w := l.w.(phase := Done))
  }

  ghost function WriterStep<C, R>(p: Program<C, R>, a: WriterAction, l: Local<C, R>): Local<C, R> {
    match a
    case TakeSpan => TakeSpanStep(p, l)
    case FinalFlush => FinalFlushStep(l)
    case Barrier => l.(w := PastBarrier(l.w))
    case Finish => FinishStep(l)
    case _ => WriteStep(a, l)
  }

  // ----- one API request -----

  datatype Reads = Reads(items: Option<Held>, comps: Option<Held>, piis: Option<Held>, conns: Option<Held>)

  datatype Reader<C, R> =
    | FetchingCatalog(gen: nat, got: Reads)
    | FetchingConnections(gen: nat, got: Reads)
    | CatalogHit(gen: nat, catalog: C)
    | ConnectionsHit(gen: nat, connections: R)
    | GotCatalog(catalog: C)
    | GotConnections(connections: R)
    | NotFound
    | Failed

  datatype ReaderAction =
    | BeginCatalog
    | BeginConnections
    | ReadItems
    | ReadComps
    | ReadPiis
    | ReadConns
    | LookItems(keys: set<string>)
    | LookComps(keys: set<string>)
    | LookPiis(keys: set<string>)
    | LookConns(keys: set<string>)
    | EndCatalog
    | EndConnections
    | Fail

  function NothingRead(): Reads {
    Reads(None, None, None, None)
  }

  /** A table is read once, at any moment during the fetch; that yields references to its rows. */
  ghost function ReadStep(a: ReaderAction, r: Reads, t: Tables): Reads {
    match a
    case ReadItems => if r.items.None? then r.(items := Some(Held(t.items, map[]))) else r
    case ReadComps => if r.comps.None? then r.(comps := Some(Held(t.comps, map[]))) else r
    case ReadPiis => if r.piis.None? then r.(piis := Some(Held(t.piis, map[]))) else r
    case ReadConns => if r.conns.None? then r.(conns := Some(Held(t.conns, map[]))) else r
    case _ => r
  }

  /** Some referenced rows are looked at; they show what the table holds under their keys by then. */
  ghost function LookAt(h: Option<Held>, keys: set<string>, t: Rows): Option<Held> {
    if h.None? then h else
    Some(h.value.(rows := h.value.rows + map k | k in keys && k in h.value.read && k !in h.value.rows && k in t :: t[k]))
  }

  /** Rows are looked at, in any order and at any moments, after all tables have been read. */
  ghost function LookStep(a: ReaderAction, r: Reads, t: Tables): Reads {
    match a
    case LookItems(keys) => r.(items := LookAt(r.items, keys, t.items))
    case LookComps(keys) => r.(comps := LookAt(r.comps, keys, t.comps))
    case LookPiis(keys) => r.(piis := LookAt(r.piis, keys, t.piis))
    case LookConns(keys) => r.(conns := LookAt(r.conns, keys, t.conns))
    case _ => r
  }

  predicate CatalogRead(r: Reads) {
    r.items.Some? && r.comps.Some? && r.piis.Some?
  }

  predicate ConnectionsRead(r: Reads) {
    r.conns.Some? && r.comps.Some?
  }

  /** Every referenced row has been looked at. */
  predicate Looked(h: Held) {
    h.rows.Keys == h.read.Keys
  }

  datatype Request<C, R> = Request(r: Reader<C, R>, c: CacheState<C, R>)

  ghost function EndCatalogStep<C, R>(p: Program<C, R>, q: Request<C, R>): Request<C, R> {
    if q.r.FetchingCatalog? && CatalogRead(q.r.got) then
      var items, comps, piis := q.r.got.items.value, q.r.got.comps.value, q.r.got.piis.value;
      if Looked(items) && Looked(comps) && Looked(piis)
      then Request(GotCatalog(p.catalog(items, comps, piis)), PublishCatalog(q.c, q.r.gen, p.catalog(items, comps, piis)))
      else q
    else q
  }

  /** Assembly fails as soon as a connection looked at lists a component that was not read. */
  ghost function EndConnectionsStep<C, R>(p: Program<C, R>, q: Request<C, R>): Request<C, R> {
    if q.r.FetchingConnections? && ConnectionsRead(q.r.got) then
      var conns, comps := q.r.got.conns.value, q.r.got.comps.value;
      if !Resolvable(conns.rows, comps.read) then Request(NotFound, q.c)
      else if Looked(conns) && Looked(comps)
      then Request(GotConnections(p.connections(conns.rows, comps.rows)),
                   PublishConnections(q.c, q.r.gen, p.connections(conns.rows, comps.rows)))
      else q
    else q
  }

  ghost function FetchStep(a: ReaderAction, r: Reads, t: Tables, allRead: bool): Reads {
    if allRead then LookStep(a, r, t) else ReadStep(a, r, t)
  }

  ghost function ReaderStep<C, R>(p: Program<C, R>, a: ReaderAction, t: Tables, q: Request<C, R>): Request<C, R> {
    match a
    case EndCatalog => EndCatalogStep(p, q)
    case EndConnections => EndConnectionsStep(p, q)
    case Fail => if q.r.FetchingCatalog? || q.r.FetchingConnections? then q.(r := Failed) else q
    case _ =>
      if q.r.FetchingCatalog?
      then q.(r := FetchingCatalog(q.r.gen, FetchStep(a, q.r.got, t, CatalogRead(q.r.got))))
      else if q.r.FetchingConnections?
      then q.(r := FetchingConnections(q.r.gen, FetchStep(a, q.r.got, t, ConnectionsRead(q.r.got))))
      else q
  }

  /** A request starts by looking at the cache, and ends there on a hit. */
  ghost function Begin<C, R>(a: ReaderAction, c: CacheState<C, R>): Reader<C, R> {
    if a.BeginCatalog? then
      if c.catalog.Some? then CatalogHit(c.generation, c.catalog.value) else FetchingCatalog(c.generation, NothingRead())
    else
      if c.connections.Some? then ConnectionsHit(c.generation, c.connections.value)
      else FetchingConnections(c.generation, NothingRead())
  }

  // ----- the system -----

  datatype Sys<C, R> = Sys(
    t: Tables, cache: CacheState<C, R>, writers: map<nat, Writer>, readers: map<nat, Reader<C, R>>)

  datatype Action = ByWriter(i: nat, w: WriterAction) | ByReader(j: nat, r: ReaderAction)

  ghost function Exec<C, R>(p: Program<C, R>, a: Action, s: Sys<C, R>): Sys<C, R> {
    match a
    case ByWriter(i, act) =>
      if i !in s.writers then s else
      var l := WriterStep(p, act, Local(s.writers[i], s.t, s.cache));
      Sys(l.t, l.c, s.writers[i := l.w], s.readers)
    case ByReader(j, act) =>
      if act.BeginCatalog? || act.BeginConnections? then
        if j in s.readers then s else s.(readers := s.readers[j := Begin(act, s.cache)])
      else if j !in s.readers then s else
      var q := ReaderStep(p, act, s.t, Request(s.readers[j], s.cache));
      s.(cache := q.c, readers := s.readers[j := q.r])
  }

  ghost function Run<C, R>(p: Program<C, R>, run: seq<Action>, s: Sys<C, R>): Sys<C, R> {
    if run == [] then s else Exec(p, run[|run| - 1], Run(p, run[..|run| - 1], s))
  }

  function NewWriter(spans: seq<Span>, threshold: int, wired: bool): Writer {
    Writer(spans, Empty(), Filling, false, false, 0, |spans|, threshold, wired)
  }

  ghost predicate Starting(w: Writer) {
    w == NewWriter(w.todo, w.threshold, w.wired)
  }

  /** Any number of calls of Process about to start, no request yet, and nothing or fresh values cached. */
  ghost predicate Initial<C, R>(p: Program<C, R>, s: Sys<C, R>) {
    && (forall i :: i in s.writers ==> Starting(s.writers[i]))
    && s.readers == map[] && CacheFresh(p, s.cache, s.t)
  }

  ghost function CatalogNow<C, R>(p: Program<C, R>, t: Tables): C {
    p.catalog(Now(t.items), Now(t.comps), Now(t.piis))
  }

  ghost predicate CatalogFresh<C, R>(p: Program<C, R>, c: CacheState<C, R>, t: Tables) {
    c.catalog.Some? ==> c.catalog.value == CatalogNow(p, t)
  }

  ghost predicate ConnectionsFresh<C, R>(p: Program<C, R>, c: CacheState<C, R>, t: Tables) {
    c.connections.Some? ==> c.connections.value == p.connections(t.conns, t.comps)
  }

  /** Whatever is cached is what the tables would yield right now. */
  ghost predicate CacheFresh<C, R>(p: Program<C, R>, c: CacheState<C, R>, t: Tables) {
    CatalogFresh(p, c, t) && ConnectionsFresh(p, c, t)
  }
}
