/** How often and how full the threshold flushes of a processor are, in every run. */
module Pacing {
  import opened Spans
  import opened Accumulation
  import opened Sizes
  import opened Responses
  import opened Protocol

  ghost predicate SmallSteps(delta: Span -> Tables, d: nat) {
    forall s :: Small(delta(s), d)
  }

  lemma DeltasSmall(cfg: Config)
    ensures SmallSteps(DeltaOf(cfg), |cfg.detectors|)
  {
    forall s
      ensures Small(DeltaOf(cfg)(s), |cfg.detectors|)
    {
      DeltaSize(cfg, s);
    }
  }

  // ----- sizes -----

  /** Below the threshold while it fills, only a little above it while it flushes. */
  ghost predicate SizesOk(w: Writer, d: nat) {
    w.threshold > 0 ==>
      && (w.phase.Filling? ==> Largest(w.acc) < w.threshold)
      && (w.phase.Wave1? || w.phase.Wave2? ==> Roomy(w.acc, w.threshold, d))
  }

  lemma SmallerIsRoomy(t: Tables, n: nat, d: nat)
    requires Largest(t) < n
    ensures Roomy(t, n, d)
  {
  }

  lemma EmptyIsSmall()
    ensures Largest(Empty()) == 0
  {
  }

  lemma TakeSpanSizes<C, R>(p: Program<C, R>, l: Local<C, R>, d: nat)
    requires SizesOk(l.w, d) && SmallSteps(p.delta, d)
    ensures SizesOk(TakeSpanStep(p, l).w, d)
  {
    if l.w.threshold > 0 && l.w.phase.Filling? && l.w.todo != [] {
      var step := p.delta(l.w.todo[0]);
      assert Small(step, d);
      StepRoomy(l.w.acc, step, l.w.threshold, d);
      TakenSizes(l.w, Apply(l.w.acc, step), d);
    }
  }

  lemma TakenSizes(w: Writer, acc: Tables, d: nat)
    requires w.todo != [] && w.threshold > 0 && Roomy(acc, w.threshold, d)
    ensures SizesOk(Taken(w, acc), d)
  {
  }

  lemma BarrierSizes(w: Writer, d: nat)
    requires SizesOk(w, d)
    ensures SizesOk(PastBarrier(w), d)
  {
    EmptyIsSmall();
    BarrierShape(w);
  }

  /** All other steps leave spans, accumulator and counts alone. */
  lemma OtherSteps<C, R>(p: Program<C, R>, a: WriterAction, l: Local<C, R>)
    requires !a.TakeSpan? && !a.Barrier?
    ensures var v := WriterStep(p, a, l).w;
      && v == l.w.(phase := v.phase, last := v.last, dirty := v.dirty)
      && (v.phase.Filling? ==> l.w.phase.Filling?)
      && (v.phase.Wave1? || v.phase.Wave2? ==> l.w.phase.Filling? || l.w.phase.Wave1? || l.w.phase.Wave2?)
  {
  }

  lemma WriterStepSizes<C, R>(p: Program<C, R>, a: WriterAction, l: Local<C, R>, d: nat)
    requires SizesOk(l.w, d) && SmallSteps(p.delta, d)
    ensures SizesOk(WriterStep(p, a, l).w, d)
  {
    match a
    case TakeSpan => TakeSpanSizes(p, l, d);
    case Barrier => BarrierSizes(l.w, d);
    case _ =>
      OtherSteps(p, a, l);
      OtherSizes(l.w, WriterStep(p, a, l).w, d);
  }

  lemma OtherSizes(w: Writer, v: Writer, d: nat)
    requires SizesOk(w, d) && v.acc == w.acc && v.threshold == w.threshold && (v.phase.Filling? ==> w.phase.Filling?)
    requires v.phase.Wave1? || v.phase.Wave2? ==> w.phase.Filling? || w.phase.Wave1? || w.phase.Wave2?
    ensures SizesOk(v, d)
  {
    if w.threshold > 0 && w.phase.Filling? { SmallerIsRoomy(w.acc, w.threshold, d); }
  }

  // ----- how often -----

  /** Rows of a kind that have not been flushed yet. */
  ghost function Waiting(w: Writer): nat {
    if w.phase.Filling? then Largest(w.acc) else 0
  }

  /** Every threshold flush is paid for by rows that spans brought. */
  ghost predicate PaidUp(w: Writer, k: nat) {
    && |w.todo| <= w.total
    && (if w.threshold > 0 then w.flushes * w.threshold + Waiting(w) <= k * (w.total - |w.todo|) else w.flushes == 0)
  }

  lemma OneSpanMore(flushes: nat, n: nat, before: nat, after: nat, k: nat, taken: nat)
    requires flushes * n + before <= k * taken && after <= before + k
    ensures flushes * n + after <= k * (taken + 1)
    ensures after >= n ==> (flushes + 1) * n <= k * (taken + 1)
  {
    assert k * (taken + 1) == k * taken + k;
    assert (flushes + 1) * n == flushes * n + n;
  }

  lemma TakeSpanGrows(acc: Tables, delta: Tables, d: nat)
    requires Small(delta, d)
    ensures Largest(Apply(acc, delta)) <= Largest(acc) + Max(2, d)
  {
    ApplySize(acc, delta);
    SumBounds(Apply(acc, delta), acc, delta);
    SmallIsAtMost(delta, d);
  }

  lemma TakenPaid(w: Writer, acc: Tables, k: nat)
    requires PaidUp(w, k) && w.phase.Filling? && w.todo != [] && Largest(acc) <= Largest(w.acc) + k
    ensures PaidUp(Taken(w, acc), k)
  {
    if w.threshold > 0 {
      OneSpanMore(w.flushes, w.threshold, Largest(w.acc), Largest(acc), k, w.total - |w.todo|);
    }
  }

  lemma TakeSpanPaid<C, R>(p: Program<C, R>, l: Local<C, R>, d: nat)
    requires PaidUp(l.w, Max(2, d)) && SmallSteps(p.delta, d)
    ensures PaidUp(TakeSpanStep(p, l).w, Max(2, d))
  {
    if l.w.phase.Filling? && l.w.todo != [] {
      var step := p.delta(l.w.todo[0]);
      assert Small(step, d);
      TakeSpanGrows(l.w.acc, step, d);
      TakenPaid(l.w, Apply(l.w.acc, step), Max(2, d));
    }
  }

  lemma WriterStepPaid<C, R>(p: Program<C, R>, a: WriterAction, l: Local<C, R>, d: nat)
    requires PaidUp(l.w, Max(2, d)) && SmallSteps(p.delta, d)
    ensures PaidUp(WriterStep(p, a, l).w, Max(2, d))
  {
    match a
    case TakeSpan => TakeSpanPaid(p, l, d);
    case Barrier => BarrierPaid(l.w, Max(2, d));
    case _ =>
      OtherSteps(p, a, l);
      OtherPaid(l.w, WriterStep(p, a, l).w, Max(2, d));
  }

  lemma BarrierPaid(w: Writer, k: nat)
    requires PaidUp(w, k)
    ensures PaidUp(PastBarrier(w), k)
  {
    EmptyIsSmall();
    BarrierShape(w);
  }

  lemma OtherPaid(w: Writer, v: Writer, k: nat)
    requires PaidUp(w, k) && v == w.(phase := v.phase, last := v.last, dirty := v.dirty)
    requires v.phase.Filling? ==> w.phase.Filling?
    ensures PaidUp(v, k)
  {
  }

  // ----- every run -----

  ghost predicate PaceOk(w: Writer, d: nat) {
    SizesOk(w, d) && PaidUp(w, Max(2, d))
  }

  ghost predicate PaceInv(writers: map<nat, Writer>, d: nat) {
    forall i :: i in writers ==> PaceOk(writers[i], d)
  }

  lemma {:induction false} RunKeepsPace<C, R>(p: Program<C, R>, run: seq<Action>, s: Sys<C, R>, d: nat)
    requires PaceInv(s.writers, d) && SmallSteps(p.delta, d)
    ensures PaceInv(Run(p, run, s).writers, d)
  {
    if run != [] {
      RunKeepsPace(p, run[..|run| - 1], s, d);
      var s1 := Run(p, run[..|run| - 1], s);
      match run[|run| - 1]
      case ByWriter(i, a) =>
        if i in s1.writers {
          WriterStepSizes(p, a, Local(s1.writers[i], s1.t, s1.cache), d);
          WriterStepPaid(p, a, Local(s1.writers[i], s1.t, s1.cache), d);
        }
      case ByReader(j, a) =>
    }
  }

  lemma FlushesBounded(w: Writer, k: nat)
    requires PaidUp(w, k)
    ensures w.threshold > 0 ==> w.flushes * w.threshold <= k * w.total
  {
    if w.threshold > 0 {
      assert k * w.total == k * (w.total - |w.todo|) + k * |w.todo|;
    }
  }

  /**
   * In every reachable state of every processor with threshold n and d detectors: no map has n rows
   * while it fills; a flush writes at most n + 1 app items, n components, n connections and n - 1 + d
   * findings; and the threshold flushes begun so far, times n, are at most max(2, d) times its spans.
   */
  lemma PaceHolds<C, R>(p: Program<C, R>, run: seq<Action>, s: Sys<C, R>, d: nat, i: nat)
    requires Initial(p, s) && SmallSteps(p.delta, d) && i in Run(p, run, s).writers
    ensures SizesOk(Run(p, run, s).writers[i], d)
    ensures var w := Run(p, run, s).writers[i];
      if w.threshold > 0 then w.flushes * w.threshold <= Max(2, d) * w.total else w.flushes == 0
  {
    EmptyIsSmall();
    forall k | k in s.writers
      ensures PaceOk(s.writers[k], d)
    {
      assert Starting(s.writers[k]);
    }
    RunKeepsPace(p, run, s, d);
    FlushesBounded(Run(p, run, s).writers[i], Max(2, d));
  }

  // ----- when -----

  /**
   * While the accumulator fills no map is full; a flush that is not the final one has a threshold, and
   * one of the four maps has reached it.
   */
  ghost predicate FlushesFull(w: Writer) {
    && (w.threshold > 0 && w.phase.Filling? ==> !SomeFull(w.acc, w.threshold))
    && ((w.phase.Wave1? || w.phase.Wave2?) && !w.last ==> w.threshold > 0 && SomeFull(w.acc, w.threshold))
  }

  lemma TakenFull(w: Writer, acc: Tables)
    requires w.todo != [] && FlushesFull(w)
    ensures FlushesFull(Taken(w, acc))
  {
    LargestReaches(acc, w.threshold);
  }

  lemma BarrierFull(w: Writer)
    requires FlushesFull(w)
    ensures FlushesFull(PastBarrier(w))
  {
    BarrierShape(w);
    EmptyIsSmall();
    LargestReaches(Empty(), w.threshold);
  }

  lemma OtherFull<C, R>(p: Program<C, R>, a: WriterAction, l: Local<C, R>)
    requires !a.TakeSpan? && !a.Barrier? && FlushesFull(l.w)
    ensures FlushesFull(WriterStep(p, a, l).w)
  {
  }

  lemma WriterStepFull<C, R>(p: Program<C, R>, a: WriterAction, l: Local<C, R>)
    requires FlushesFull(l.w)
    ensures FlushesFull(WriterStep(p, a, l).w)
  {
    match a
    case TakeSpan =>
      if l.w.phase.Filling? && l.w.todo != [] { TakenFull(l.w, Apply(l.w.acc, p.delta(l.w.todo[0]))); }
    case Barrier => BarrierFull(l.w);
    case _ => OtherFull(p, a, l);
  }

  /** In every reachable state: a threshold flush is in progress only if some map is full. */
  lemma {:induction false} FlushesOnlyWhenFull<C, R>(p: Program<C, R>, run: seq<Action>, s: Sys<C, R>, i: nat)
    requires Initial(p, s) && i in Run(p, run, s).writers
    ensures FlushesFull(Run(p, run, s).writers[i])
  {
    if run == [] {
      assert Starting(s.writers[i]);
      EmptyIsSmall();
      LargestReaches(Empty(), s.writers[i].threshold);
    } else {
      var s1 := Run(p, run[..|run| - 1], s);
      FlushesOnlyWhenFull(p, run[..|run| - 1], s, i);
      match run[|run| - 1]
      case ByWriter(k, a) => if k == i { WriterStepFull(p, a, Local(s1.writers[i], s1.t, s1.cache)); }
      case ByReader(j, a) =>
    }
  }
}
