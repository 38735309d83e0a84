/** When a request for the connections can miss a component. */
module Lookups {
  import opened Values
  import opened Combining
  import opened UniqueMerge
  import opened Spans
  import opened Accumulation
  import opened Integrity
  import opened Catalog
  import opened Responses
  import opened Protocol
  import opened Runs
  import opened References

  // ----- connections looked at list stored components -----

  lemma ResolvableGrows(conns: Rows, comps: Rows, more: Rows)
    requires Resolvable(conns, comps) && comps.Keys <= more.Keys
    ensures Resolvable(conns, more)
  {
    forall k | k in conns
      ensures Resolved(more.Keys)(k, conns[k])
    {
      assert Resolved(comps.Keys)(k, conns[k]);
    }
  }

  /** The connections that were looked at list only components stored by now. */
  ghost predicate LooksResolve(r: Reads, comps: Rows) {
    r.conns.Some? ==> Resolvable(r.conns.value.rows, comps)
  }

  ghost predicate ReaderResolves<C, R>(r: Reader<C, R>, comps: Rows) {
    r.FetchingConnections? ==> LooksResolve(r.got, comps)
  }

  lemma LookResolves(h: Option<Held>, keys: set<string>, t: Rows, comps: Rows)
    requires h.Some? && Resolvable(h.value.rows, comps) && Resolvable(t, comps)
    ensures Resolvable(LookAt(h, keys, t).value.rows, comps)
  {
    var rows := LookAt(h, keys, t).value.rows;
    forall k | k in rows
      ensures Resolved(comps.Keys)(k, rows[k])
    {
      if k in h.value.rows {
        assert Resolved(comps.Keys)(k, h.value.rows[k]);
      } else {
        assert Resolved(comps.Keys)(k, t[k]);
      }
    }
  }

  lemma FetchResolves(a: ReaderAction, r: Reads, t: Tables, allRead: bool)
    requires LooksResolve(r, t.comps) && Linked(t.items, t.comps, t.conns)
    ensures LooksResolve(FetchStep(a, r, t, allRead), t.comps)
  {
    LinkedResolvable(t.items, t.comps, t.conns);
    if allRead && a.LookConns? && r.conns.Some? {
      LookResolves(r.conns, a.keys, t.conns, t.comps);
    }
  }

  ghost predicate ReadersResolve<C, R>(readers: map<nat, Reader<C, R>>, comps: Rows) {
    forall j :: j in readers ==> ReaderResolves(readers[j], comps)
  }

  lemma ReaderStepResolves<C, R>(p: Program<C, R>, a: ReaderAction, t: Tables, q: Request<C, R>)
    requires ReaderResolves(q.r, t.comps) && Linked(t.items, t.comps, t.conns)
    ensures ReaderResolves(ReaderStep(p, a, t, q).r, t.comps)
  {
    if q.r.FetchingConnections? { FetchResolves(a, q.r.got, t, ConnectionsRead(q.r.got)); }
  }

  lemma WriterKeepsResolving<C, R>(readers: map<nat, Reader<C, R>>, comps: Rows, more: Rows)
    requires ReadersResolve(readers, comps) && comps.Keys <= more.Keys
    ensures ReadersResolve(readers, more)
  {
    forall j | j in readers
      ensures ReaderResolves(readers[j], more)
    {
      if readers[j].FetchingConnections? && readers[j].got.conns.Some? {
        ResolvableGrows(readers[j].got.conns.value.rows, comps, more);
      }
    }
  }

  lemma ReaderKeepsResolving<C, R>(p: Program<C, R>, j: nat, a: ReaderAction, s: Sys<C, R>)
    requires Linked(s.t.items, s.t.comps, s.t.conns) && ReadersResolve(s.readers, s.t.comps)
    ensures ReadersResolve(Exec(p, ByReader(j, a), s).readers, Exec(p, ByReader(j, a), s).t.comps)
  {
    if j in s.readers {
      ReaderStepResolves(p, a, s.t, Request(s.readers[j], s.cache));
    }
  }

  lemma WriterStepResolves<C, R>(p: Program<C, R>, i: nat, a: WriterAction, s: Sys<C, R>)
    requires RefInv(s) && AllClosed(p.delta) && ReadersResolve(s.readers, s.t.comps)
    ensures ReadersResolve(Exec(p, ByWriter(i, a), s).readers, Exec(p, ByWriter(i, a), s).t.comps)
  {
    StepKeepsReferences(p, ByWriter(i, a), s);
    WriterKeepsResolving(s.readers, s.t.comps, Exec(p, ByWriter(i, a), s).t.comps);
  }

  lemma StepKeepsResolving<C, R>(p: Program<C, R>, a: Action, s: Sys<C, R>)
    requires RefInv(s) && AllClosed(p.delta) && ReadersResolve(s.readers, s.t.comps)
    ensures ReadersResolve(Exec(p, a, s).readers, Exec(p, a, s).t.comps)
  {
    if a.ByWriter? {
      WriterStepResolves(p, a.i, a.w, s);
    } else {
      ReaderKeepsResolving(p, a.j, a.r, s);
    }
  }

  lemma {:induction false} RunKeepsResolving<C, R>(p: Program<C, R>, run: seq<Action>, s: Sys<C, R>)
    requires RefInv(s) && AllClosed(p.delta) && ReadersResolve(s.readers, s.t.comps)
    ensures ReadersResolve(Run(p, run, s).readers, Run(p, run, s).t.comps)
  {
    if run != [] {
      RunKeepsResolving(p, run[..|run| - 1], s);
      RunKeepsReferences(p, run[..|run| - 1], s);
      StepKeepsResolving(p, run[|run| - 1], Run(p, run[..|run| - 1], s));
    }
  }

  // ----- exactly when a component is not found -----

  /** A connection that was looked at lists a component that is stored now but was not read. */
  ghost predicate ListsNewComponent(r: Reads, comps: Rows)
    requires ConnectionsRead(r)
  {
    exists k, i :: k in r.conns.value.rows && 0 <= i < |Ids(r.conns.value.rows[k])|
      && Ids(r.conns.value.rows[k])[i] in comps && Ids(r.conns.value.rows[k])[i] !in r.comps.value.read
  }

  lemma UnresolvedIff(r: Reads, comps: Rows)
    requires ConnectionsRead(r) && LooksResolve(r, comps)
    ensures !Resolvable(r.conns.value.rows, r.comps.value.read) <==> ListsNewComponent(r, comps)
  {
    var conns, read := r.conns.value.rows, r.comps.value.read;
    if !Resolvable(conns, read) {
      var k :| k in conns && !Resolved(read.Keys)(k, conns[k]);
      assert Resolved(comps.Keys)(k, conns[k]);
      var i :| 0 <= i < |Ids(conns[k])| && Ids(conns[k])[i] !in read.Keys;
      assert Ids(conns[k])[i] in comps;
    }
    if ListsNewComponent(r, comps) {
      var k, i :| k in conns && 0 <= i < |Ids(conns[k])| && Ids(conns[k])[i] in comps && Ids(conns[k])[i] !in read;
      assert !Resolved(read.Keys)(k, conns[k]);
    }
  }

  /** Request j has read both tables and assembles its connections. */
  ghost predicate Assembling<C, R>(s: Sys<C, R>, j: nat) {
    j in s.readers && s.readers[j].FetchingConnections? && ConnectionsRead(s.readers[j].got)
  }

  /**
   * In every reachable state: assembly fails with a component not found iff a connection that was
   * looked at lists a component that is stored but was not when the components were read.
   */
  lemma NotFoundIff<C, R>(p: Program<C, R>, run: seq<Action>, s: Sys<C, R>, j: nat)
    requires Initial(p, s) && Closed(s.t) && AllClosed(p.delta) && Assembling(Run(p, run, s), j)
    ensures var s' := Run(p, run, s);
      Exec(p, ByReader(j, EndConnections), s').readers[j] == NotFound <==> ListsNewComponent(s'.readers[j].got, s'.t.comps)
  {
    StartsSound(p, s);
    RunKeepsResolving(p, run, s);
    var s' := Run(p, run, s);
    assert ReaderResolves(s'.readers[j], s'.t.comps);
    UnresolvedIff(s'.readers[j].got, s'.t.comps);
    FailsIff(p, s', j);
  }

  lemma FailsIff<C, R>(p: Program<C, R>, s: Sys<C, R>, j: nat)
    requires Assembling(s, j)
    ensures var f, got := Exec(p, ByReader(j, EndConnections), s), s.readers[j].got;
      f.readers[j] == NotFound <==> !Resolvable(got.conns.value.rows, got.comps.value.read)
  {
  }

  /** What the components were when they were read stays with the request. */
  lemma {:induction false} ReadStays<C, R>(p: Program<C, R>, run: seq<Action>, s: Sys<C, R>, j: nat)
    requires j in s.readers && s.readers[j].FetchingConnections? && s.readers[j].got.comps.Some?
    ensures var s' := Run(p, run, s);
      j in s'.readers && (s'.readers[j].FetchingConnections? ==>
        s'.readers[j].got.comps.Some? && s'.readers[j].got.comps.value.read == s.readers[j].got.comps.value.read)
  {
    if run != [] {
      var s1, a := Run(p, run[..|run| - 1], s), run[|run| - 1];
      ReadStays(p, run[..|run| - 1], s, j);
      if a.ByReader? && a.j == j {
        StepKeepsRead(p, a.r, s1.t, Request(s1.readers[j], s1.cache));
      } else if !s1.readers[j].FetchingConnections? {
        StaysEnded(p, a, s1, j);
      }
    }
  }

  lemma StepKeepsRead<C, R>(p: Program<C, R>, a: ReaderAction, t: Tables, q: Request<C, R>)
    ensures var r := ReaderStep(p, a, t, q).r;
      && (r.FetchingConnections? ==> q.r.FetchingConnections?)
      && (r.FetchingConnections? && q.r.got.comps.Some? ==>
           r.got.comps.Some? && r.got.comps.value.read == q.r.got.comps.value.read)
  {
  }

  lemma StaysEnded<C, R>(p: Program<C, R>, a: Action, s: Sys<C, R>, j: nat)
    requires j in s.readers && !s.readers[j].FetchingConnections?
    ensures j in Exec(p, a, s).readers && !Exec(p, a, s).readers[j].FetchingConnections?
  {
  }

  /**
   * A request never misses a component if none is stored between its read of the components and the
   * end of its assembly, whatever else is written meanwhile.
   */
  lemma FoundIfNoneStored<C, R>(p: Program<C, R>, early: seq<Action>, late: seq<Action>, s: Sys<C, R>, j: nat)
    requires Initial(p, s) && Closed(s.t) && AllClosed(p.delta)
    requires var s1 := Run(p, early, s);
      && j in s1.readers && s1.readers[j].FetchingConnections? && s1.readers[j].got.comps.Some?
      && s1.readers[j].got.comps.value.read.Keys == s1.t.comps.Keys
    requires Assembling(Run(p, late, Run(p, early, s)), j)
    requires Run(p, late, Run(p, early, s)).t.comps.Keys == Run(p, early, s).t.comps.Keys
    ensures Exec(p, ByReader(j, EndConnections), Run(p, late, Run(p, early, s))).readers[j] != NotFound
  {
    var s1 := Run(p, early, s);
    ReadStays(p, late, s1, j);
    RunConcat(p, early, late, s);
    NotFoundIff(p, early + late, s, j);
  }

  // ----- runs that fail -----

  /** Request j reads both tables, in either order. */
  function BothRun(j: nat, compsFirst: bool): seq<Action> {
    if compsFirst
    then [] + [ByReader(j, BeginConnections)] + [ByReader(j, ReadComps)] + [ByReader(j, ReadConns)]
    else [] + [ByReader(j, BeginConnections)] + [ByReader(j, ReadConns)] + [ByReader(j, ReadComps)]
  }

  /** Writer i stores its one span except for findings. */
  function WriteRun(i: nat): seq<Action> {
    StartRun(i) + StoreRun(i) + [ByWriter(i, WriteConns(true))]
  }

  /** Request j looks at connection k and assembles. */
  function LookRun(j: nat, k: string): seq<Action> {
    [] + [ByReader(j, LookConns({k}))] + [ByReader(j, EndConnections)]
  }

  lemma ReadsBoth<C, R>(p: Program<C, R>, s: Sys<C, R>, j: nat, compsFirst: bool)
    requires j !in s.readers && s.cache.connections.None?
    ensures var f := Run(p, BothRun(j, compsFirst), s);
      && f.t == s.t && f.cache == s.cache && f.writers == s.writers && j in f.readers
      && f.readers[j] == FetchingConnections(s.cache.generation,
           Reads(None, Some(Held(s.t.comps, map[])), None, Some(Held(s.t.conns, map[]))))
  {
    var a0: seq<Action> := [];
    var a1 := a0 + [ByReader(j, BeginConnections)];
    RunNext(p, a0, ByReader(j, BeginConnections), s);
    if compsFirst {
      RunNext(p, a1, ByReader(j, ReadComps), s);
      RunNext(p, a1 + [ByReader(j, ReadComps)], ByReader(j, ReadConns), s);
    } else {
      RunNext(p, a1, ByReader(j, ReadConns), s);
      RunNext(p, a1 + [ByReader(j, ReadConns)], ByReader(j, ReadComps), s);
    }
  }

  lemma Writes<C, R>(p: Program<C, R>, s: Sys<C, R>, i: nat, x: Span)
    requires i in s.writers && s.writers[i] == NewWriter([x], 0, true)
    ensures var f := Run(p, WriteRun(i), s);
      f.readers == s.readers && f.cache == s.cache && f.t.conns == After(JoinIds, s.t.conns, p.delta(x).conns, true)
  {
    StartsFlush(p, s, i, x);
    StoresFirstWave(p, Run(p, StartRun(i), s), i);
    RunConcat(p, StartRun(i), StoreRun(i), s);
    RunNext(p, StartRun(i) + StoreRun(i), ByWriter(i, WriteConns(true)), s);
  }

  lemma Misses<C, R>(p: Program<C, R>, s: Sys<C, R>, j: nat, k: string, id: string)
    requires Assembling(s, j) && s.readers[j].got.conns.value.rows == map[]
    requires k in s.readers[j].got.conns.value.read && k in s.t.conns
    requires id in Ids(s.t.conns[k]) && id !in s.readers[j].got.comps.value.read
    ensures var f := Run(p, LookRun(j, k), s); j in f.readers && f.readers[j] == NotFound
  {
    var a0: seq<Action> := [];
    var a1 := a0 + [ByReader(j, LookConns({k}))];
    RunNext(p, a0, ByReader(j, LookConns({k})), s);
    RunNext(p, a1, ByReader(j, EndConnections), s);
    var got := s.readers[j].got;
    LooksAtOne(got.conns.value.read, k, s.t.conns);
    MissingUnresolved(LookAt(got.conns, {k}, s.t.conns).value.rows, k, id, got.comps.value.read);
    LookMoves(p, s, j, k);
    FailsIff(p, Run(p, a1, s), j);
  }

  lemma LookMoves<C, R>(p: Program<C, R>, s: Sys<C, R>, j: nat, k: string)
    requires Assembling(s, j)
    ensures var f, got := Exec(p, ByReader(j, LookConns({k})), s), s.readers[j].got;
      Assembling(f, j) && f.readers[j].got == got.(conns := LookAt(got.conns, {k}, s.t.conns))
  {
  }

  lemma LooksAtOne(read: Rows, k: string, t: Rows)
    requires k in read && k in t
    ensures var rows := LookAt(Some(Held(read, map[])), {k}, t).value.rows; k in rows && rows[k] == t[k]
  {
  }

  lemma MissingUnresolved(rows: Rows, k: string, id: string, read: Rows)
    requires k in rows && id in Ids(rows[k]) && id !in read
    ensures !Resolvable(rows, read)
  {
    assert !AllIn(Ids(rows[k]), read.Keys);
    assert !Resolved(read.Keys)(k, rows[k]);
  }

  /** The request reads both tables, a call stores one span, the request assembles. */
  function LiveRun(i: nat, j: nat, k: string, compsFirst: bool): seq<Action> {
    BothRun(j, compsFirst) + WriteRun(i) + LookRun(j, k)
  }

  lemma JoinedHas(f: Rows, a: Rows, k: string, id: string)
    requires k in f && k in a && id in Ids(a[k])
    ensures k in After(JoinIds, f, a, true) && id in Ids(After(JoinIds, f, a, true)[k])
  {
    CombineAt(JoinIds, f, a, k);
    MergeHas(Ids(f[k]), Ids(a[k]), id);
  }

  /**
   * Whichever table is read first, a request can fail although every reference in the tables is good
   * at every moment: the stored connection that it refers to gains a component before it is looked at.
   */
  lemma LiveConnectionCanFail<C, R>(p: Program<C, R>, s: Sys<C, R>, i: nat, j: nat, x: Span,
      k: string, id: string, compsFirst: bool)
    requires j !in s.readers && s.cache.connections.None?
    requires i in s.writers && s.writers[i] == NewWriter([x], 0, true)
    requires k in s.t.conns && k in p.delta(x).conns && id in Ids(p.delta(x).conns[k]) && id !in s.t.comps
    ensures var f := Run(p, LiveRun(i, j, k, compsFirst), s); j in f.readers && f.readers[j] == NotFound
  {
    RunConcat(p, BothRun(j, compsFirst) + WriteRun(i), LookRun(j, k), s);
    RunConcat(p, BothRun(j, compsFirst), WriteRun(i), s);
    ReadsBoth(p, s, j, compsFirst);
    var s1 := Run(p, BothRun(j, compsFirst), s);
    Writes(p, s1, i, x);
    JoinedHas(s.t.conns, p.delta(x).conns, k, id);
    Misses(p, Run(p, WriteRun(i), s1), j, k, id);
  }

  /** Request j reads the components first. */
  function CompsRun(j: nat): seq<Action> {
    [] + [ByReader(j, BeginConnections)] + [ByReader(j, ReadComps)]
  }

  /** The request reads the components, a call stores one span, the request reads the connections and assembles. */
  function LateConnectionsRun(i: nat, j: nat, k: string): seq<Action> {
    CompsRun(j) + WriteRun(i) + [ByReader(j, ReadConns)] + LookRun(j, k)
  }

  lemma ReadsComps<C, R>(p: Program<C, R>, s: Sys<C, R>, j: nat)
    requires j !in s.readers && s.cache.connections.None?
    ensures var f := Run(p, CompsRun(j), s);
      && f.t == s.t && f.cache == s.cache && f.writers == s.writers && j in f.readers
      && f.readers[j] == FetchingConnections(s.cache.generation, Reads(None, Some(Held(s.t.comps, map[])), None, None))
  {
    var a0: seq<Action> := [];
    RunNext(p, a0, ByReader(j, BeginConnections), s);
    RunNext(p, a0 + [ByReader(j, BeginConnections)], ByReader(j, ReadComps), s);
  }

  /** On an empty database too: the components are read before the call, the connections after it. */
  lemma ComponentsReadFirstCanFail<C, R>(p: Program<C, R>, s: Sys<C, R>, i: nat, j: nat, x: Span, k: string, id: string)
    requires j !in s.readers && s.cache.connections.None? && s.t == Empty()
    requires i in s.writers && s.writers[i] == NewWriter([x], 0, true)
    requires k in p.delta(x).conns && id in Ids(p.delta(x).conns[k])
    ensures var f := Run(p, LateConnectionsRun(i, j, k), s); j in f.readers && f.readers[j] == NotFound
  {
    RunConcat(p, CompsRun(j) + WriteRun(i) + [ByReader(j, ReadConns)], LookRun(j, k), s);
    RunNext(p, CompsRun(j) + WriteRun(i), ByReader(j, ReadConns), s);
    RunConcat(p, CompsRun(j), WriteRun(i), s);
    ReadsComps(p, s, j);
    var s1 := Run(p, CompsRun(j), s);
    Writes(p, s1, i, x);
    CombineIdentity(JoinIds, p.delta(x).conns);
    var s2 := Run(p, WriteRun(i), s1);
    Misses(p, Exec(p, ByReader(j, ReadConns), s2), j, k, id);
  }
}
