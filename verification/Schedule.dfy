/** Where the processor flushes, and what has been written whenever it does. */
module Schedule {
  import opened Values
  import opened Spans
  import opened Accumulation
  import opened Sizes
  import opened Integrity
  import opened Flushing

  // ----- totals -----

  /** total says what an accumulator holds after any list of spans. */
  ghost predicate Additive(total: seq<Span> -> Tables) {
    && total([]) == Empty()
    && forall xs, ys {:trigger total(xs + ys)} :: total(xs + ys) == Apply(total(xs), total(ys))
  }

  /** Rows are well-formed and refer to nothing outside. */
  ghost predicate GoodRows(t: Tables) {
    WellFormed(t) && Closed(t)
  }

  ghost predicate GoodTotals(total: seq<Span> -> Tables) {
    forall spans {:trigger GoodRows(total(spans))} :: GoodRows(total(spans))
  }

  lemma GoodAt(total: seq<Span> -> Tables, spans: seq<Span>, a: int, b: int)
    requires GoodTotals(total) && 0 <= a <= b <= |spans|
    ensures GoodRows(total(spans[a..b]))
  {
    var part := spans[a..b];
    assert GoodRows(total(part));
  }

  lemma AccumulatedGood(cfg: Config, spans: seq<Span>)
    ensures GoodRows(AccumulatedBy(cfg)(spans))
  {
    DeltasWellFormed(cfg);
    AccumulatedWellFormed(DeltaOf(cfg), spans);
    DeltasClosed(cfg);
    AccumulatedClosed(DeltaOf(cfg), spans);
  }

  lemma TotalsAdd(cfg: Config)
    ensures Additive(AccumulatedBy(cfg)) && GoodTotals(AccumulatedBy(cfg))
  {
    var delta := DeltaOf(cfg);
    forall xs: seq<Span>, ys: seq<Span>
      ensures AccumulatedBy(cfg)(xs + ys) == Apply(AccumulatedBy(cfg)(xs), AccumulatedBy(cfg)(ys))
    {
      AccumulatedConcat(delta, xs, ys);
    }
    forall spans: seq<Span>
      ensures GoodRows(AccumulatedBy(cfg)(spans))
    {
      AccumulatedGood(cfg, spans);
    }
  }

  lemma TotalOfOne(cfg: Config, s: Span)
    ensures AccumulatedBy(cfg)([s]) == Delta(cfg, s)
  {
    var one := [s];
    assert one[..|one| - 1] == [] && one[|one| - 1] == s;
    assert Accumulated(DeltaOf(cfg), one) == Apply(Accumulated(DeltaOf(cfg), []), DeltaOf(cfg)(s));
    ApplyIdentity(Delta(cfg, s));
  }

  lemma SplitAt<T>(s: seq<T>, a: int, b: int, c: int)
    requires 0 <= a <= b <= c <= |s|
    ensures s[a..c] == s[a..b] + s[b..c]
  {
  }

  lemma OneOf<T>(s: seq<T>, i: int)
    requires 0 <= i < |s|
    ensures s[i..i + 1] == [s[i]]
  {
  }

  lemma TotalSplits(total: seq<Span> -> Tables, spans: seq<Span>, a: int, b: int, c: int)
    requires Additive(total) && 0 <= a <= b <= c <= |spans|
    ensures total(spans[a..c]) == Apply(total(spans[a..b]), total(spans[b..c]))
  {
    SplitAt(spans, a, b, c);
  }

  lemma NextSpan(total: seq<Span> -> Tables, spans: seq<Span>, done: int, i: int)
    requires Additive(total) && 0 <= done <= i < |spans|
    ensures total(spans[done..i + 1]) == Apply(total(spans[done..i]), total([spans[i]]))
  {
    TotalSplits(total, spans, done, i, i + 1);
    OneOf(spans, i);
  }

  /** Two flushes in turn are one flush of both. */
  lemma FlushedTwice(v: View, u: View, w: View, a: Tables, b: Tables, ok: bool)
    requires Flushed(v, u, a, true) && Flushed(u, w, b, ok)
    ensures Flushed(v, w, Apply(a, b), ok)
  {
    ApplyAssociative(Snapshot(v), a, b);
    WritableSplits(v, a, b);
  }

  // ----- where threshold flushes happen -----

  ghost function LastCut(cuts: seq<int>): int {
    if cuts == [] then 0 else cuts[|cuts| - 1]
  }

  ghost function Front(cuts: seq<int>): seq<int>
    requires cuts != []
  {
    cuts[..|cuts| - 1]
  }

  /** The spans from position a up to b are the first to bring some map to size n. */
  ghost predicate Reaches(total: seq<Span> -> Tables, spans: seq<Span>, n: int, a: int, b: int) {
    && 0 <= a < b <= |spans|
    && Largest(total(spans[a..b])) >= n
    && Largest(total(spans[a..b - 1])) < n
  }

  ghost function Reaching(total: seq<Span> -> Tables, spans: seq<Span>, n: int): (int, int) -> bool {
    (a, b) => Reaches(total, spans, n, a, b)
  }

  /** The positions after which a threshold flush happens, each reached from the one before. */
  ghost predicate Cuts(reaches: (int, int) -> bool, cuts: seq<int>) {
    cuts == [] || (
      var front, last := cuts[..|cuts| - 1], cuts[|cuts| - 1];
      Cuts(reaches, front) && reaches(LastCut(front), last))
  }

  lemma NextCut(reaches: (int, int) -> bool, cuts: seq<int>, i: int)
    requires Cuts(reaches, cuts) && reaches(LastCut(cuts), i)
    ensures Cuts(reaches, cuts + [i]) && LastCut(cuts + [i]) == i
  {
    assert (cuts + [i])[..|cuts|] == cuts;
  }

  // ----- the course of one call of Process -----

  /** The spans up to done were flushed in full; the flush of those from done up to i failed and left w. */
  ghost predicate StoppedAt(total: seq<Span> -> Tables, spans: seq<Span>, v: View, w: View, done: int, i: int) {
    && 0 <= done <= i <= |spans|
    && exists u :: Flushed(v, u, total(spans[..done]), true) && TwoWaves(u, w, total(spans[done..i]), false)
  }

  /**
   * Where a call started and what it has to do: total says what an accumulator holds after any
   * spans; since says what flushing some rows promises about a later view; reaches says where
   * threshold flushes happen; halts says what a failed flush leaves.
   */
  datatype Course = Course(
    start: View,
    total: seq<Span> -> Tables,
    since: (View, Tables, bool) -> bool,
    reaches: (int, int) -> bool,
    halts: (View, int, int) -> bool)

  ghost function CourseOf(cfg: Config, spans: seq<Span>, n: int, v: View): Course {
    Course(v, AccumulatedBy(cfg), (w, a, ok) => Flushed(v, w, a, ok), Reaching(AccumulatedBy(cfg), spans, n),
           (w, done, i) => StoppedAt(AccumulatedBy(cfg), spans, v, w, done, i))
  }

  ghost predicate Contributes(cfg: Config, total: seq<Span> -> Tables) {
    forall s {:trigger Delta(cfg, s)} :: total([s]) == Delta(cfg, s)
  }

  ghost predicate Since(c: Course) {
    forall w, a, ok {:trigger Flushed(c.start, w, a, ok)} :: c.since(w, a, ok) <==> Flushed(c.start, w, a, ok)
  }

  ghost predicate Paces(c: Course, spans: seq<Span>, n: int) {
    forall a, b {:trigger Reaches(c.total, spans, n, a, b)} :: c.reaches(a, b) <==> Reaches(c.total, spans, n, a, b)
  }

  ghost predicate Halts(c: Course, spans: seq<Span>) {
    forall w, done, i {:trigger StoppedAt(c.total, spans, c.start, w, done, i)} ::
      c.halts(w, done, i) <==> StoppedAt(c.total, spans, c.start, w, done, i)
  }

  ghost predicate Lawful(c: Course, cfg: Config, spans: seq<Span>, n: int) {
    && Contributes(cfg, c.total) && Additive(c.total) && GoodTotals(c.total)
    && Since(c) && Paces(c, spans, n) && Halts(c, spans)
  }

  lemma CourseLawful(cfg: Config, spans: seq<Span>, n: int, v: View)
    ensures Lawful(CourseOf(cfg, spans, n, v), cfg, spans, n)
  {
    TotalsAdd(cfg);
    forall s
      ensures AccumulatedBy(cfg)([s]) == Delta(cfg, s)
    {
      TotalOfOne(cfg, s);
    }
  }

  /** Before span i: the first done spans are flushed, those since sit in the accumulator a. */
  ghost predicate Midway(c: Course, spans: seq<Span>, w: View, a: Tables, done: int, i: int) {
    && 0 <= done <= i <= |spans|
    && a == c.total(spans[done..i])
    && c.since(w, c.total(spans[..done]), true)
  }

  /** At every loop head with a positive threshold, no map has reached it. */
  ghost predicate Paced(c: Course, n: int, cuts: seq<int>, a: Tables) {
    if n > 0 then Cuts(c.reaches, cuts) && Largest(a) < n else cuts == []
  }

  /** The loop of the processor with threshold n: still going before span i, or stopped by a failed flush. */
  ghost predicate Looping(c: Course, spans: seq<Span>, n: int, w: View, a: Tables, cuts: seq<int>, i: int, ok: bool) {
    if ok then Midway(c, spans, w, a, LastCut(cuts), i) && Paced(c, n, cuts, a)
    else Failed(c, spans, n, w, cuts)
  }

  /** The flush at the last cut has failed. */
  ghost predicate Failed(c: Course, spans: seq<Span>, n: int, w: View, cuts: seq<int>) {
    && n > 0 && cuts != [] && Cuts(c.reaches, cuts) && LastCut(cuts) <= |spans|
    && c.since(w, c.total(spans), false) && c.halts(w, LastCut(Front(cuts)), LastCut(cuts))
  }

  lemma StartsEmpty(c: Course, spans: seq<Span>, n: int)
    requires SchemaOk(c.start) && Additive(c.total) && Since(c)
    ensures Looping(c, spans, n, c.start, Empty(), [], 0, true)
  {
    ApplyIdentity(Snapshot(c.start));
    SlicesJoin(spans, 0, 0);
    assert Flushed(c.start, c.start, Empty(), true);
  }

  lemma MidwaySchema(c: Course, spans: seq<Span>, w: View, a: Tables, done: int, i: int)
    requires Midway(c, spans, w, a, done, i) && Since(c)
    ensures SchemaOk(w)
  {
    assert Flushed(c.start, w, c.total(spans[..done]), true);
  }

  lemma MidwayNext(c: Course, spans: seq<Span>, w: View, a: Tables, b: Tables, done: int, i: int)
    requires Midway(c, spans, w, a, done, i) && i < |spans| && b == c.total(spans[done..i + 1])
    ensures Midway(c, spans, w, b, done, i + 1)
  {
  }

  lemma HaltsHere(c: Course, spans: seq<Span>, u: View, w: View, a: Tables, done: int, i: int)
    requires Midway(c, spans, u, a, done, i) && TwoWaves(u, w, a, false) && Since(c) && Halts(c, spans)
    ensures c.halts(w, done, i)
  {
    assert Flushed(c.start, u, c.total(spans[..done]), true);
    assert StoppedAt(c.total, spans, c.start, w, done, i);
  }

  /** The accumulator is flushed: the loop goes on with an empty one, or has failed for good. */
  lemma MidwayFlushed(c: Course, spans: seq<Span>, u: View, w: View, a: Tables, done: int, i: int, ok: bool)
    requires Midway(c, spans, u, a, done, i) && Flushed(u, w, a, ok) && Additive(c.total) && Since(c)
    ensures if ok then Midway(c, spans, w, Empty(), i, i) else c.since(w, c.total(spans), false)
  {
    FlushPoint(c, spans, u, w, done, i, ok);
    if ok {
      SlicesJoin(spans, i, i);
    } else {
      FailureIsFinal(c, spans, w, i);
    }
  }

  /** The rest is flushed. */
  lemma MidwayEnd(c: Course, spans: seq<Span>, u: View, w: View, a: Tables, done: int, ok: bool)
    requires Midway(c, spans, u, a, done, |spans|) && Flushed(u, w, a, ok) && Additive(c.total) && Since(c)
    ensures c.since(w, c.total(spans), ok)
  {
    FlushPoint(c, spans, u, w, done, |spans|, ok);
    SlicesJoin(spans, |spans|, |spans|);
  }

  /** After a flush at position i everything stands as after one flush of the first i spans. */
  lemma FlushPoint(c: Course, spans: seq<Span>, u: View, w: View, done: int, i: int, ok: bool)
    requires Additive(c.total) && Since(c) && 0 <= done <= i <= |spans|
    requires c.since(u, c.total(spans[..done]), true)
    requires Flushed(u, w, c.total(spans[done..i]), ok)
    ensures c.since(w, c.total(spans[..i]), ok)
  {
    TotalSplits(c.total, spans, 0, done, i);
    SinceTwice(c, u, w, c.total(spans[..done]), c.total(spans[done..i]), ok);
  }

  lemma SinceTwice(c: Course, u: View, w: View, a: Tables, b: Tables, ok: bool)
    requires Since(c) && c.since(u, a, true) && Flushed(u, w, b, ok)
    ensures c.since(w, Apply(a, b), ok)
  {
    assert Flushed(c.start, u, a, true);
    FlushedTwice(c.start, u, w, a, b, ok);
  }

  lemma FailureIsFinal(c: Course, spans: seq<Span>, w: View, i: int)
    requires Additive(c.total) && Since(c) && 0 <= i <= |spans| && c.since(w, c.total(spans[..i]), false)
    ensures c.since(w, c.total(spans), false)
  {
    TotalSplits(c.total, spans, 0, i, |spans|);
    SlicesJoin(spans, i, i);
    FailsWithMore(c, w, c.total(spans[..i]), c.total(spans[i..]));
  }

  lemma FailsWithMore(c: Course, w: View, a: Tables, b: Tables)
    requires Since(c) && c.since(w, a, false)
    ensures c.since(w, Apply(a, b), false)
  {
    assert Flushed(c.start, w, a, false);
    WritableSplits(c.start, a, b);
    assert Flushed(c.start, w, Apply(a, b), false);
  }

  /** With b accumulated up to span i, the position after it is the next cut if b has reached size n. */
  ghost predicate MayCut(c: Course, n: int, cuts: seq<int>, b: Tables, i: int) {
    && (if n > 0 then Cuts(c.reaches, cuts) else cuts == [])
    && (n > 0 && Largest(b) >= n ==> Cuts(c.reaches, cuts + [i + 1]))
  }

  lemma NextMayCut(c: Course, spans: seq<Span>, n: int, cuts: seq<int>, a: Tables, b: Tables, i: int)
    requires Paces(c, spans, n) && Paced(c, n, cuts, a) && 0 <= LastCut(cuts) <= i < |spans|
    requires a == c.total(spans[LastCut(cuts)..i]) && b == c.total(spans[LastCut(cuts)..i + 1])
    ensures MayCut(c, n, cuts, b, i)
  {
    if n > 0 && Largest(b) >= n {
      assert Reaches(c.total, spans, n, LastCut(cuts), i + 1);
      NextCut(c.reaches, cuts, i + 1);
    }
  }

  /** After a flush at position i the loop goes on from there, or has stopped. */
  lemma LoopingAfter(c: Course, spans: seq<Span>, n: int, w: View, cuts: seq<int>, i: int, ok: bool)
    requires n > 0 && Cuts(c.reaches, cuts + [i]) && i <= |spans|
    requires if ok then Midway(c, spans, w, Empty(), i, i)
             else c.since(w, c.total(spans), false) && c.halts(w, LastCut(cuts), i)
    ensures AfterFlush(c, spans, n, w, cuts + [i], i, ok)
  {
    assert Front(cuts + [i]) == cuts && LastCut(cuts + [i]) == i;
  }

  /** A flush at position i has emptied the accumulator, or failed. */
  ghost predicate AfterFlush(c: Course, spans: seq<Span>, n: int, w: View, cuts: seq<int>, i: int, ok: bool) {
    if ok then Looping(c, spans, n, w, Empty(), cuts, i, true) else Failed(c, spans, n, w, cuts)
  }

  lemma FlushedInRun(c: Course, spans: seq<Span>, n: int, u: View, w: View, a: Tables, cuts: seq<int>, i: int, ok: bool)
    requires Midway(c, spans, u, a, LastCut(cuts), i) && Flushed(u, w, a, ok) && TwoWaves(u, w, a, ok)
    requires Additive(c.total) && Since(c) && Halts(c, spans) && n > 0 && Cuts(c.reaches, cuts + [i])
    ensures AfterFlush(c, spans, n, w, cuts + [i], i, ok)
  {
    MidwayFlushed(c, spans, u, w, a, LastCut(cuts), i, ok);
    if !ok {
      HaltsHere(c, spans, u, w, a, LastCut(cuts), i);
    }
    LoopingAfter(c, spans, n, w, cuts, i, ok);
  }

  // ----- the whole schedule -----

  /**
   * The threshold flushes of a call that reached the end of its spans (ended) or failed before: each
   * cut is reached from the one before, and at the end no map has reached the threshold again.
   */
  ghost predicate Scheduled(total: seq<Span> -> Tables, reaches: (int, int) -> bool, spans: seq<Span>, n: int,
      cuts: seq<int>, ended: bool)
  {
    && 0 <= LastCut(cuts) <= |spans|
    && (if n > 0 then Cuts(reaches, cuts) else cuts == [])
    && (if ended then n > 0 ==> Largest(total(spans[LastCut(cuts)..|spans|])) < n else cuts != [])
  }

  /** How many spans had been flushed when the last flush was tried. */
  ghost function FlushedBefore(cuts: seq<int>, ended: bool): int {
    if ended || cuts == [] then LastCut(cuts) else LastCut(Front(cuts))
  }

  /** Up to which span the last flush was to reach. */
  ghost function FlushedUpTo(cuts: seq<int>, ended: bool, spans: seq<Span>): int {
    if ended then |spans| else LastCut(cuts)
  }

  /** Where the flush that follows the first k cuts starts. */
  ghost function CutBefore(cuts: seq<int>, k: nat): int
    requires k <= |cuts|
  {
    if k == 0 then 0 else cuts[k - 1]
  }

  /** Some map reaches n rows at b, counting from a, and none does at any earlier position. */
  ghost predicate FirstFull(total: seq<Span> -> Tables, spans: seq<Span>, n: int, a: int, b: int) {
    && 0 <= a < b <= |spans| && SomeFull(total(spans[a..b]), n)
    && forall c :: a <= c < b ==> !SomeFull(total(spans[a..c]), n)
  }

  ghost predicate NeverFull(total: seq<Span> -> Tables, spans: seq<Span>, n: int, a: int) {
    0 <= a <= |spans| && forall c :: a <= c <= |spans| ==> !SomeFull(total(spans[a..c]), n)
  }

  /**
   * Threshold flushes happen exactly when one of the four maps has reached the threshold: at each cut
   * some map has, at no position before it any map had, and none does after the last cut.
   */
  ghost predicate FlushesWhenFull(total: seq<Span> -> Tables, spans: seq<Span>, n: int, cuts: seq<int>, ended: bool) {
    if n <= 0 then cuts == []
    else
      && (forall k :: 0 <= k < |cuts| ==> FirstFull(total, spans, n, CutBefore(cuts, k), cuts[k]))
      && (ended ==> NeverFull(total, spans, n, CutBefore(cuts, |cuts|)))
  }

  /** What a call of Process with threshold n promises about the database before and after it. */
  ghost predicate Processed(cfg: Config, spans: seq<Span>, n: int, v: View, w: View,
      cuts: seq<int>, ended: bool, ok: bool)
  {
    && Flushed(v, w, AccumulatedBy(cfg)(spans), ok) && (ok ==> ended)
    && Scheduled(AccumulatedBy(cfg), Reaching(AccumulatedBy(cfg), spans, n), spans, n, cuts, ended)
    && (!ok ==> StoppedAt(AccumulatedBy(cfg), spans, v, w, FlushedBefore(cuts, ended), FlushedUpTo(cuts, ended, spans)))
  }

  lemma LoopEnds(c: Course, spans: seq<Span>, n: int, w: View, a: Tables, cuts: seq<int>)
    requires Looping(c, spans, n, w, a, cuts, |spans|, true)
    ensures Scheduled(c.total, c.reaches, spans, n, cuts, true)
  {
  }

  lemma LoopFails(c: Course, spans: seq<Span>, n: int, w: View, cuts: seq<int>)
    requires Failed(c, spans, n, w, cuts) && Halts(c, spans)
    ensures Scheduled(c.total, c.reaches, spans, n, cuts, false)
    ensures c.halts(w, FlushedBefore(cuts, false), FlushedUpTo(cuts, false, spans))
  {
    assert StoppedAt(c.total, spans, c.start, w, LastCut(Front(cuts)), LastCut(cuts));
  }

  /** A larger prefix never brings fewer rows. */
  lemma LargestGrows(total: seq<Span> -> Tables, spans: seq<Span>, a: int, b: int, c: int)
    requires Additive(total) && 0 <= a <= b <= c <= |spans|
    ensures Largest(total(spans[a..b])) <= Largest(total(spans[a..c]))
  {
    TotalSplits(total, spans, a, b, c);
    ApplyGrows(total(spans[a..b]), total(spans[b..c]));
  }

  /** The rows of a kind that the spans from a up to b bring. */
  ghost function SizeOf(total: seq<Span> -> Tables, spans: seq<Span>): (int, int) -> int {
    (a, b) => if 0 <= a <= b <= |spans| then Largest(total(spans[a..b])) else 0
  }

  ghost predicate Growing(size: (int, int) -> int, len: int) {
    forall a, b, c {:trigger size(a, b), size(a, c)} :: 0 <= a <= b <= c <= len ==> size(a, b) <= size(a, c)
  }

  lemma SizesGrow(total: seq<Span> -> Tables, spans: seq<Span>)
    requires Additive(total)
    ensures Growing(SizeOf(total, spans), |spans|)
  {
    var size := SizeOf(total, spans);
    forall a, b, c | 0 <= a <= b <= c <= |spans|
      ensures size(a, b) <= size(a, c)
    {
      LargestGrows(total, spans, a, b, c);
    }
  }

  /** The first position after a where the size is n. */
  ghost predicate Crosses(size: (int, int) -> int, len: int, n: int, a: int, b: int) {
    0 <= a < b <= len && size(a, b) >= n && size(a, b - 1) < n
  }

  lemma ReachesCrosses(total: seq<Span> -> Tables, spans: seq<Span>, n: int, a: int, b: int)
    ensures Reaches(total, spans, n, a, b) <==> Crosses(SizeOf(total, spans), |spans|, n, a, b)
  {
  }

  lemma CrossesOnce(size: (int, int) -> int, len: int, n: int, a: int, b: int, c: int)
    requires Growing(size, len) && Crosses(size, len, n, a, b) && Crosses(size, len, n, a, c)
    ensures b == c
  {
    assert b <= c - 1 ==> size(a, b) <= size(a, c - 1);
    assert c <= b - 1 ==> size(a, c) <= size(a, b - 1);
  }

  lemma ReachesFirstFull(total: seq<Span> -> Tables, spans: seq<Span>, n: int, a: int, b: int)
    requires Additive(total) && Reaches(total, spans, n, a, b)
    ensures FirstFull(total, spans, n, a, b)
  {
    LargestReaches(total(spans[a..b]), n);
    forall c | a <= c < b
      ensures !SomeFull(total(spans[a..c]), n)
    {
      LargestGrows(total, spans, a, c, b - 1);
      LargestReaches(total(spans[a..c]), n);
    }
  }

  lemma BelowNeverFull(total: seq<Span> -> Tables, spans: seq<Span>, n: int, a: int)
    requires Additive(total) && 0 <= a <= |spans| && Largest(total(spans[a..|spans|])) < n
    ensures NeverFull(total, spans, n, a)
  {
    forall c | a <= c <= |spans|
      ensures !SomeFull(total(spans[a..c]), n)
    {
      LargestGrows(total, spans, a, c, |spans|);
      LargestReaches(total(spans[a..c]), n);
    }
  }

  lemma {:induction false} CutReached(reaches: (int, int) -> bool, cuts: seq<int>, k: nat)
    requires Cuts(reaches, cuts) && k < |cuts|
    ensures reaches(CutBefore(cuts, k), cuts[k])
  {
    var front := cuts[..|cuts| - 1];
    assert LastCut(front) == CutBefore(cuts, |cuts| - 1);
    if k < |front| {
      CutReached(reaches, front, k);
      assert CutBefore(front, k) == CutBefore(cuts, k) && front[k] == cuts[k];
    }
  }

  /** The flush points that a call reports are exactly where a map becomes full. */
  lemma CutsWhenFull(cfg: Config, spans: seq<Span>, n: int, cuts: seq<int>, ended: bool)
    requires Scheduled(AccumulatedBy(cfg), Reaching(AccumulatedBy(cfg), spans, n), spans, n, cuts, ended)
    ensures FlushesWhenFull(AccumulatedBy(cfg), spans, n, cuts, ended)
  {
    TotalsAdd(cfg);
    var total := AccumulatedBy(cfg);
    if n > 0 {
      forall k | 0 <= k < |cuts|
        ensures FirstFull(total, spans, n, CutBefore(cuts, k), cuts[k])
      {
        CutReached(Reaching(total, spans, n), cuts, k);
        ReachesFirstFull(total, spans, n, CutBefore(cuts, k), cuts[k]);
      }
      if ended {
        BelowNeverFull(total, spans, n, LastCut(cuts));
      }
    }
  }

  ghost predicate Functional(reaches: (int, int) -> bool) {
    forall a, b, c {:trigger reaches(a, b), reaches(a, c)} :: reaches(a, b) && reaches(a, c) ==> b == c
  }

  lemma ReachesOnce(total: seq<Span> -> Tables, spans: seq<Span>, n: int)
    requires Additive(total)
    ensures Functional(Reaching(total, spans, n))
  {
    SizesGrow(total, spans);
    var reaches := Reaching(total, spans, n);
    forall a, b, c | reaches(a, b) && reaches(a, c)
      ensures b == c
    {
      ReachesCrosses(total, spans, n, a, b);
      ReachesCrosses(total, spans, n, a, c);
      CrossesOnce(SizeOf(total, spans), |spans|, n, a, b, c);
    }
  }

  /** Once a map has reached size n it stays so until the next flush. */
  lemma StaysReached(total: seq<Span> -> Tables, spans: seq<Span>, n: int, a: int, b: int, c: int)
    requires Additive(total) && 0 <= a <= b <= c <= |spans| && Largest(total(spans[a..b])) >= n
    ensures Largest(total(spans[a..c])) >= n
  {
    LargestGrows(total, spans, a, b, c);
  }

  lemma {:induction false} CutsAgree(reaches: (int, int) -> bool, xs: seq<int>, ys: seq<int>)
    requires Functional(reaches) && |xs| == |ys| && Cuts(reaches, xs) && Cuts(reaches, ys)
    ensures xs == ys
  {
    if xs != [] {
      CutsAgree(reaches, Front(xs), Front(ys));
      assert reaches(LastCut(Front(xs)), LastCut(xs)) && reaches(LastCut(Front(xs)), LastCut(ys));
      assert xs == Front(xs) + [LastCut(xs)] && ys == Front(ys) + [LastCut(ys)];
    }
  }

  lemma {:induction false} CutsPrefix(reaches: (int, int) -> bool, cuts: seq<int>, k: nat)
    requires Cuts(reaches, cuts) && k <= |cuts|
    ensures Cuts(reaches, cuts[..k]) && (k < |cuts| ==> reaches(LastCut(cuts[..k]), cuts[k]))
  {
    if k < |cuts| {
      var front := Front(cuts);
      assert front[..k] == cuts[..k];
      CutsPrefix(reaches, front, k);
    } else {
      assert cuts[..k] == cuts;
    }
  }

  lemma CutReaches(total: seq<Span> -> Tables, spans: seq<Span>, n: int, cuts: seq<int>, k: nat)
    requires Cuts(Reaching(total, spans, n), cuts) && k < |cuts|
    ensures Reaches(total, spans, n, LastCut(cuts[..k]), cuts[k])
  {
    CutsPrefix(Reaching(total, spans, n), cuts, k);
  }

  lemma NoMoreCuts(total: seq<Span> -> Tables, spans: seq<Span>, n: int, xs: seq<int>, ys: seq<int>)
    requires Additive(total) && n > 0 && Scheduled(total, Reaching(total, spans, n), spans, n, xs, true)
    requires Cuts(Reaching(total, spans, n), ys) && |xs| <= |ys|
    ensures xs == ys
  {
    CutsPrefix(Reaching(total, spans, n), ys, |xs|);
    ReachesOnce(total, spans, n);
    CutsAgree(Reaching(total, spans, n), xs, ys[..|xs|]);
    if |xs| < |ys| {
      CutReaches(total, spans, n, ys, |xs|);
      StaysReached(total, spans, n, LastCut(xs), ys[|xs|], |spans|);
    } else {
      WholePrefix(ys);
    }
  }

  /** The flush points of a call that reached its end are determined by its spans and its threshold. */
  lemma ScheduleUnique(total: seq<Span> -> Tables, spans: seq<Span>, n: int, xs: seq<int>, ys: seq<int>)
    requires Additive(total)
    requires Scheduled(total, Reaching(total, spans, n), spans, n, xs, true)
    requires Scheduled(total, Reaching(total, spans, n), spans, n, ys, true)
    ensures xs == ys
  {
    if n > 0 {
      if |xs| <= |ys| {
        NoMoreCuts(total, spans, n, xs, ys);
      } else {
        NoMoreCuts(total, spans, n, ys, xs);
      }
    }
  }

  // ----- how many there are -----

  ghost predicate StepsAtMost(total: seq<Span> -> Tables, k: nat) {
    forall s :: Largest(total([s])) <= k
  }

  lemma StepTotal(c: nat, t: nat, a: nat, k: nat, n: nat)
    requires n > 0 && c <= t + a && a <= k && t <= k * (n - 1)
    ensures c <= k * n
  {
    assert k * n == k * (n - 1) + k;
  }

  /** An accumulator holds at most k rows of a kind per span. */
  lemma {:induction false} TotalSize(total: seq<Span> -> Tables, k: nat, spans: seq<Span>)
    requires Additive(total) && StepsAtMost(total, k)
    ensures Largest(total(spans)) <= k * |spans|
  {
    if spans != [] {
      var front, s := spans[..|spans| - 1], spans[|spans| - 1];
      TotalSize(total, k, front);
      var t, a := total(front), total([s]);
      assert spans == front + [s];
      ApplySize(t, a);
      SumBounds(Apply(t, a), t, a);
      StepTotal(Largest(Apply(t, a)), Largest(t), Largest(a), k, |spans|);
    }
  }

  lemma PaidFor(count: nat, n: nat, k: nat, a: nat, b: nat)
    requires a <= b && count * n <= k * a && n <= k * (b - a)
    ensures (count + 1) * n <= k * b
  {
    assert k * b == k * a + k * (b - a);
    assert (count + 1) * n == count * n + n;
  }

  /** Each threshold flush is paid for by the spans accumulated since the one before. */
  lemma {:induction false} CutsBounded(total: seq<Span> -> Tables, k: nat, spans: seq<Span>, n: nat, cuts: seq<int>)
    requires Additive(total) && StepsAtMost(total, k) && Cuts(Reaching(total, spans, n), cuts)
    ensures 0 <= LastCut(cuts) <= |spans| && |cuts| * n <= k * LastCut(cuts)
  {
    if cuts != [] {
      var front := cuts[..|cuts| - 1];
      CutsBounded(total, k, spans, n, front);
      assert Reaches(total, spans, n, LastCut(front), LastCut(cuts));
      TotalSize(total, k, spans[LastCut(front)..LastCut(cuts)]);
      PaidFor(|front|, n, k, LastCut(front), LastCut(cuts));
    }
  }

  lemma StepIsSmall(cfg: Config, s: Span)
    ensures Small(AccumulatedBy(cfg)([s]), |cfg.detectors|)
  {
    TotalOfOne(cfg, s);
    DeltaSize(cfg, s);
  }

  lemma MulMonotone(k: nat, a: nat, b: nat)
    requires a <= b
    ensures k * a <= k * b
  {
  }

  lemma StepsBounded(cfg: Config)
    ensures StepsAtMost(AccumulatedBy(cfg), Max(2, |cfg.detectors|))
  {
    forall s
      ensures Largest(AccumulatedBy(cfg)([s])) <= Max(2, |cfg.detectors|)
    {
      StepIsSmall(cfg, s);
      SmallIsAtMost(AccumulatedBy(cfg)([s]), |cfg.detectors|);
    }
  }

  /** The number of threshold flushes is bounded by the data. */
  lemma FlushCount(cfg: Config, spans: seq<Span>, n: nat, cuts: seq<int>)
    ensures Cuts(Reaching(AccumulatedBy(cfg), spans, n), cuts) ==> |cuts| * n <= Max(2, |cfg.detectors|) * |spans|
  {
    TotalsAdd(cfg);
    StepsBounded(cfg);
    if Cuts(Reaching(AccumulatedBy(cfg), spans, n), cuts) {
      var k := Max(2, |cfg.detectors|);
      CutsBounded(AccumulatedBy(cfg), k, spans, n, cuts);
      MulMonotone(k, LastCut(cuts), |spans|);
    }
  }

  /** What an accumulator holds at the k-th threshold flush. */
  ghost function FlushedAt(total: seq<Span> -> Tables, spans: seq<Span>, cuts: seq<int>, k: nat): Tables
    requires k < |cuts| && 0 <= LastCut(cuts[..k]) <= cuts[k] <= |spans|
  {
    total(spans[LastCut(cuts[..k])..cuts[k]])
  }

  lemma ReachesBounds(total: seq<Span> -> Tables, d: nat, spans: seq<Span>, n: nat, a: int, b: int)
    requires Additive(total) && Reaches(total, spans, n, a, b) && Small(total([spans[b - 1]]), d)
    ensures Roomy(total(spans[a..b]), n, d)
  {
    NextSpan(total, spans, a, b - 1);
    StepRoomy(total(spans[a..b - 1]), total([spans[b - 1]]), n, d);
  }

  /** How large the four maps can be at any threshold flush. */
  lemma FlushBounds(cfg: Config, spans: seq<Span>, n: nat, cuts: seq<int>, k: nat)
    requires k < |cuts|
    ensures Cuts(Reaching(AccumulatedBy(cfg), spans, n), cuts) ==>
      && 0 <= LastCut(cuts[..k]) <= cuts[k] <= |spans|
      && Roomy(FlushedAt(AccumulatedBy(cfg), spans, cuts, k), n, |cfg.detectors|)
  {
    TotalsAdd(cfg);
    if Cuts(Reaching(AccumulatedBy(cfg), spans, n), cuts) {
      CutReaches(AccumulatedBy(cfg), spans, n, cuts, k);
      StepIsSmall(cfg, spans[cuts[k] - 1]);
      ReachesBounds(AccumulatedBy(cfg), |cfg.detectors|, spans, n, LastCut(cuts[..k]), cuts[k]);
    }
  }
}
