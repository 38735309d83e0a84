/** The span processor: accumulate, flush in two waves, flush the rest, invalidate the cache. */
module Processor {
  import opened Values
  import opened TableSpec
  import opened Database
  import opened Combining
  import opened Spans
  import opened Accumulation
  import opened Accumulators
  import opened TableWrites
  import opened Flushing
  import opened Sizes
  import opened Schedule
  import opened Responses

  class SpanProcessor {
    const db: DB
    const cfg: Config
    const threshold: int
    const cache: ResponseCache?

    constructor (db: DB, cfg: Config, threshold: int, cache: ResponseCache?)
      ensures this.db == db && this.cfg == cfg && this.threshold == threshold && this.cache == cache
    {
      this.db, this.cfg, this.threshold, this.cache := db, cfg, threshold, cache;
    }

    method RunBatch(name: string, mode: Mode, recs: seq<Record>, ghost out: Option<TableState>) returns (ok: bool)
      requires recs != [] && LeadsTable(mode, recs, Peek(db, name), out)
      modifies if name in db.tables then {db.tables[name]} else {}
      ensures ok <==> name in db.tables
      ensures Peek(db, name) == out
    {
      var status := db.Mutate(name, BatchOp(mode, recs));
      ok := status == Ok;
    }

    /** One of the four parallel writes of a flush. */
    method WriteRows(name: string, ghost schema: Schema, mode: Mode, rows: Rows, ghost f: (Record, Record) -> Record)
        returns (ok: bool)
      requires Suits(schema, mode, f, rows) && HasShape(Peek(db, name), schema)
      modifies if name in db.tables then {db.tables[name]} else {}
      ensures ok <==> rows == map[] || name in db.tables
      ensures Written(schema, f, rows, old(Peek(db, name)), Peek(db, name))
    {
      if |rows| == 0 {
        WritesNothing(schema, f, Peek(db, name));
        return true;
      }
      var recs, keys := MapValues(rows);
      ListsSome(recs, keys, rows);
      ghost var out := WritesTable(schema, mode, f, rows, recs, keys, Peek(db, name));
      ok := RunBatch(name, mode, recs, out);
    }

    /** The same, with what becomes of three other tables: nothing. */
    method WriteOneOf(name: string, x: string, y: string, z: string, ghost schema: Schema, mode: Mode, rows: Rows,
        ghost f: (Record, Record) -> Record) returns (ok: bool)
      requires db.Valid() && name != x && name != y && name != z
      requires Suits(schema, mode, f, rows) && HasShape(Peek(db, name), schema)
      modifies db.tables.Values
      ensures ok <==> rows == map[] || Peek(db, name).Some?
      ensures Written(schema, f, rows, old(Peek(db, name)), Peek(db, name))
      ensures Peek(db, x) == old(Peek(db, x)) && Peek(db, y) == old(Peek(db, y)) && Peek(db, z) == old(Peek(db, z))
    {
      ok := WriteRows(name, schema, mode, rows, f);
    }

    method WriteItems(rows: Rows) returns (ok: bool)
      requires db.Valid() && SchemaOk(ViewOf(db)) && AllRows(IsItem, rows)
      modifies db.tables.Values
      ensures ok <==> rows == map[] || ViewOf(db).items.Some?
      ensures Written(ItemsSchema(), TakeFields, rows, old(ViewOf(db)).items, ViewOf(db).items)
      ensures ViewOf(db) == old(ViewOf(db)).(items := ViewOf(db).items)
    {
      ItemsSuit(rows);
      ok := WriteOneOf("app_items", "components", "component_piis", "connections", ItemsSchema(), Upserting,
                       rows, TakeFields);
    }

    method WriteComponents(rows: Rows) returns (ok: bool)
      requires db.Valid() && SchemaOk(ViewOf(db)) && AllRows(IsComponent, rows)
      modifies db.tables.Values
      ensures ok <==> rows == map[] || ViewOf(db).comps.Some?
      ensures Written(ComponentsSchema(), TakeFields, rows, old(ViewOf(db)).comps, ViewOf(db).comps)
      ensures ViewOf(db) == old(ViewOf(db)).(comps := ViewOf(db).comps)
    {
      ComponentsSuit(rows);
      ok := WriteOneOf("components", "app_items", "component_piis", "connections", ComponentsSchema(), Upserting,
                       rows, TakeFields);
    }

    method WritePiis(rows: Rows) returns (ok: bool)
      requires db.Valid() && SchemaOk(ViewOf(db)) && AllRows(IsPii, rows)
      modifies db.tables.Values
      ensures ok <==> rows == map[] || ViewOf(db).piis.Some?
      ensures Written(PiisSchema(), StayFirst, rows, old(ViewOf(db)).piis, ViewOf(db).piis)
      ensures ViewOf(db) == old(ViewOf(db)).(piis := ViewOf(db).piis)
    {
      PiisSuit(rows);
      ok := WriteOneOf("component_piis", "app_items", "components", "connections",
                       PiisSchema(), OnConflict(DoNothing()), rows, StayFirst);
    }

    method WriteConnections(rows: Rows) returns (ok: bool)
      requires db.Valid() && SchemaOk(ViewOf(db)) && AllRows(IsConnection, rows)
      modifies db.tables.Values
      ensures ok <==> rows == map[] || ViewOf(db).conns.Some?
      ensures Written(ConnectionsSchema(), JoinIds, rows, old(ViewOf(db)).conns, ViewOf(db).conns)
      ensures ViewOf(db) == old(ViewOf(db)).(conns := ViewOf(db).conns)
    {
      ConnectionsSuit(rows);
      ok := WriteOneOf("connections", "app_items", "components", "component_piis",
                       ConnectionsSchema(), OnConflict(MergeComponentIds()), rows, JoinIds);
    }

    /** Both writes of the first wave, in either order; a failure of one does not stop the other. */
    method WriteItemsAndComponents(acc: Accumulator) returns (ok: bool)
      requires db.Valid() && SchemaOk(ViewOf(db)) && WellFormed(acc.State())
      modifies db.tables.Values
      ensures FirstWave(old(ViewOf(db)), ViewOf(db), acc.State(), ok)
    {
      var okItems, okComps;
      if * {
        okItems := WriteItems(acc.items);
        okComps := WriteComponents(acc.comps);
      } else {
        okComps := WriteComponents(acc.comps);
        okItems := WriteItems(acc.items);
      }
      ok := okItems && okComps;
    }

    method WaveOne(acc: Accumulator) returns (ok: bool)
      requires db.Valid() && SchemaOk(ViewOf(db)) && WellFormed(acc.State())
      modifies db.tables.Values
      ensures FirstWave(old(ViewOf(db)), ViewOf(db), acc.State(), ok)
    {
      if |acc.items| > 0 || |acc.comps| > 0 {
        ok := WriteItemsAndComponents(acc);
      } else {
        FirstWaveSkipped(ViewOf(db), acc.State());
        ok := true;
      }
    }

    /** Both writes of the second wave, in either order. */
    method WritePiisAndConnections(acc: Accumulator) returns (ok: bool)
      requires db.Valid() && SchemaOk(ViewOf(db)) && WellFormed(acc.State())
      modifies db.tables.Values
      ensures SecondWave(old(ViewOf(db)), ViewOf(db), acc.State(), ok)
    {
      var okPiis, okConns;
      if * {
        okPiis := WritePiis(acc.piis);
        okConns := WriteConnections(acc.conns);
      } else {
        okConns := WriteConnections(acc.conns);
        okPiis := WritePiis(acc.piis);
      }
      ok := okPiis && okConns;
    }

    method WaveTwo(acc: Accumulator) returns (ok: bool)
      requires db.Valid() && SchemaOk(ViewOf(db)) && WellFormed(acc.State())
      modifies db.tables.Values
      ensures SecondWave(old(ViewOf(db)), ViewOf(db), acc.State(), ok)
    {
      if |acc.piis| > 0 || |acc.conns| > 0 {
        ok := WritePiisAndConnections(acc);
      } else {
        SecondWaveSkipped(ViewOf(db), acc.State());
        ok := true;
      }
    }

    method Flush(acc: Accumulator) returns (ok: bool)
      requires db.Valid() && SchemaOk(ViewOf(db)) && GoodRows(acc.State())
      modifies db.tables.Values
      ensures Flushed(old(ViewOf(db)), ViewOf(db), acc.State(), ok)
      ensures TwoWaves(old(ViewOf(db)), ViewOf(db), acc.State(), ok)
    {
      ghost var v := ViewOf(db);
      ok := WaveOne(acc);
      ghost var u := ViewOf(db);
      if !ok {
        FirstWaveFails(v, u, acc.State());
        return;
      }
      FirstWaveSchema(v, u, acc.State(), true);
      ok := WaveTwo(acc);
      WavesEnd(v, u, ViewOf(db), acc.State(), ok);
    }

    method AccumulateSpan(acc: Accumulator, spans: seq<Span>, i: nat, ghost total: seq<Span> -> Tables, ghost done: int)
      requires Contributes(cfg, total) && Additive(total) && GoodTotals(total)
      requires 0 <= done <= i < |spans| && acc.State() == total(spans[done..i])
      modifies acc
      ensures acc.State() == total(spans[done..i + 1])
    {
      GoodAt(total, spans, done, i);
      acc.Accumulate(cfg, spans[i]);
      NextSpan(total, spans, done, i);
    }

    /** A flush in mid-run. */
    method FlushInRun(acc: Accumulator, ghost spans: seq<Span>, ghost c: Course, ghost cuts: seq<int>, ghost i: int)
        returns (ok: bool)
      requires Midway(c, spans, ViewOf(db), acc.State(), LastCut(cuts), i) && Lawful(c, cfg, spans, threshold) && db.Valid()
      requires threshold > 0 && Cuts(c.reaches, cuts + [i])
      modifies db.tables.Values
      ensures AfterFlush(c, spans, threshold, ViewOf(db), cuts + [i], i, ok)
    {
      ghost var u, a, done := ViewOf(db), acc.State(), LastCut(cuts);
      GoodAt(c.total, spans, done, i);
      MidwaySchema(c, spans, u, a, done, i);
      ok := Flush(acc);
      FlushedInRun(c, spans, threshold, u, ViewOf(db), a, cuts, i, ok);
    }

    /** After a successful flush the accumulator starts over. */
    method FlushAndReset(acc: Accumulator, ghost spans: seq<Span>, ghost c: Course, ghost cuts: seq<int>, ghost i: int)
        returns (ok: bool)
      requires Midway(c, spans, ViewOf(db), acc.State(), LastCut(cuts), i) && Lawful(c, cfg, spans, threshold) && db.Valid()
      requires threshold > 0 && Cuts(c.reaches, cuts + [i])
      modifies db.tables.Values, acc
      ensures Looping(c, spans, threshold, ViewOf(db), acc.State(), cuts + [i], i, ok)
    {
      ok := FlushInRun(acc, spans, c, cuts, i);
      if ok {
        acc.Reset();
      }
    }

    /** The end of one round of the loop: flush if a map has reached the threshold. */
    method FlushIfFull(acc: Accumulator, ghost spans: seq<Span>, ghost c: Course, ghost cuts: seq<int>, ghost i: nat)
        returns (ok: bool, ghost next: seq<int>)
      requires Midway(c, spans, ViewOf(db), acc.State(), LastCut(cuts), i + 1)
      requires Lawful(c, cfg, spans, threshold) && db.Valid()
      requires MayCut(c, threshold, cuts, acc.State(), i)
      modifies db.tables.Values, acc
      ensures Looping(c, spans, threshold, ViewOf(db), acc.State(), next, i + 1, ok)
      ensures next == if threshold > 0 && SomeFull(old(acc.State()), threshold) then cuts + [i + 1] else cuts
    {
      LargestReaches(acc.State(), threshold);
      var exceeds := acc.ExceedsThreshold(threshold);
      if threshold > 0 && exceeds {
        next := cuts + [i + 1];
        ok := FlushAndReset(acc, spans, c, cuts, i + 1);
      } else {
        ok, next := true, cuts;
      }
    }

    /** One round of the loop. */
    method TakeSpan(acc: Accumulator, spans: seq<Span>, ghost c: Course, ghost cuts: seq<int>, i: nat)
        returns (ok: bool, ghost next: seq<int>)
      requires Lawful(c, cfg, spans, threshold) && db.Valid() && i < |spans|
      requires Looping(c, spans, threshold, ViewOf(db), acc.State(), cuts, i, true)
      modifies db.tables.Values, acc
      ensures Looping(c, spans, threshold, ViewOf(db), acc.State(), next, i + 1, ok)
    {
      ghost var a, w := acc.State(), ViewOf(db);
      AccumulateSpan(acc, spans, i, c.total, LastCut(cuts));
      MidwayNext(c, spans, w, a, acc.State(), LastCut(cuts), i);
      NextMayCut(c, spans, threshold, cuts, a, acc.State(), i);
      ok, next := FlushIfFull(acc, spans, c, cuts, i);
    }

    /** The loop over all spans, up to the last threshold flush. */
    method TakeAll(acc: Accumulator, spans: seq<Span>, ghost c: Course) returns (ok: bool, ghost cuts: seq<int>)
      requires Lawful(c, cfg, spans, threshold) && db.Valid()
      requires Looping(c, spans, threshold, ViewOf(db), acc.State(), [], 0, true)
      modifies db.tables.Values, acc
      ensures Looping(c, spans, threshold, ViewOf(db), acc.State(), cuts, |spans|, ok)
    {
      ok, cuts := true, [];
      var i := 0;
      while ok && i < |spans|
        invariant i <= |spans| && Looping(c, spans, threshold, ViewOf(db), acc.State(), cuts, i, ok)
      {
        ok, cuts := TakeSpan(acc, spans, c, cuts, i);
        i := i + 1;
      }
    }

    method FlushRest(acc: Accumulator, ghost spans: seq<Span>, ghost c: Course, ghost done: int) returns (ok: bool)
      requires Midway(c, spans, ViewOf(db), acc.State(), done, |spans|) && Lawful(c, cfg, spans, threshold) && db.Valid()
      modifies db.tables.Values
      ensures c.since(ViewOf(db), c.total(spans), ok) && (!ok ==> c.halts(ViewOf(db), done, |spans|))
    {
      ghost var u := ViewOf(db);
      GoodAt(c.total, spans, done, |spans|);
      MidwaySchema(c, spans, u, acc.State(), done, |spans|);
      ok := Flush(acc);
      MidwayEnd(c, spans, u, ViewOf(db), acc.State(), done, ok);
      if !ok {
        HaltsHere(c, spans, u, ViewOf(db), acc.State(), done, |spans|);
      }
    }

    method FlushInBatches(spans: seq<Span>, ghost c: Course) returns (ok: bool, ghost cuts: seq<int>, ghost ended: bool)
      requires Lawful(c, cfg, spans, threshold) && db.Valid()
      requires c.start == ViewOf(db) && SchemaOk(c.start)
      modifies db.tables.Values
      ensures c.since(ViewOf(db), c.total(spans), ok) && (ok ==> ended)
      ensures Scheduled(c.total, c.reaches, spans, threshold, cuts, ended)
      ensures !ok ==> c.halts(ViewOf(db), FlushedBefore(cuts, ended), FlushedUpTo(cuts, ended, spans))
    {
      StartsEmpty(c, spans, threshold);
      var acc := new Accumulator();
      ok, cuts := TakeAll(acc, spans, c);
      ended := ok;
      if ok {
        LoopEnds(c, spans, threshold, ViewOf(db), acc.State(), cuts);
        ok := FlushRest(acc, spans, c, LastCut(cuts));
      } else {
        LoopFails(c, spans, threshold, ViewOf(db), cuts);
      }
    }

    method FlushSpans(spans: seq<Span>) returns (ok: bool, ghost cuts: seq<int>, ghost ended: bool)
      requires db.Valid() && SchemaOk(ViewOf(db))
      modifies db.tables.Values
      ensures Processed(cfg, spans, threshold, old(ViewOf(db)), ViewOf(db), cuts, ended, ok)
      ensures FlushesWhenFull(AccumulatedBy(cfg), spans, threshold, cuts, ended)
    {
      ghost var v := ViewOf(db);
      CourseLawful(cfg, spans, threshold, v);
      ok, cuts, ended := FlushInBatches(spans, CourseOf(cfg, spans, threshold, v));
      CutsWhenFull(cfg, spans, threshold, cuts, ended);
    }

    method InvalidateIfOwed(owed: bool)
      modifies if cache != null then {cache} else {}
      ensures cache != null ==> cache.State() == if owed then Invalidated(old(cache.State())) else old(cache.State())
      ensures ViewOf(db) == old(ViewOf(db))
    {
      if owed && cache != null {
        cache.Invalidate();
      }
    }

    /**
     * Succeeds iff every kind of row that the spans produce has its table.  On success the tables
     * hold what one flush of everything gives, for every threshold; on failure they hold what one
     * flush of the spans before the last try gives, and what the two waves of that try left.  Threshold
     * flushes happen at cuts: exactly where one of the four maps first reaches the threshold, and
     * nowhere else.
     */
    method Process(spans: seq<Span>) returns (ok: bool, ghost cuts: seq<int>, ghost ended: bool)
      requires db.Valid() && SchemaOk(ViewOf(db))
      modifies db.tables.Values, if cache != null then {cache} else {}
      ensures Processed(cfg, spans, threshold, old(ViewOf(db)), ViewOf(db), cuts, ended, ok)
      ensures FlushesWhenFull(AccumulatedBy(cfg), spans, threshold, cuts, ended)
      ensures cache != null && ok && spans != [] ==>
        cache.generation == old(cache.generation) + 1 && cache.State().catalog.None? && cache.State().connections.None?
      ensures cache != null && (!ok || spans == []) ==> cache.State() == old(cache.State())
      ensures cache != null ==> cache.State() == CacheAfter(old(cache.State()), spans, ok)
    {
      ok, cuts, ended := FlushSpans(spans);
      InvalidateIfOwed(ok && |spans| > 0);
    }
  }
}
