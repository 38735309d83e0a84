/** A single call of Process, interleaved with any requests, computes what the sequential one computes. */
module OneWriter {
  import opened Values
  import opened Combining
  import opened Spans
  import opened Accumulation
  import opened Protocol

  ghost function Due(f: (Record, Record) -> Record, write: Write, t: Rows, rows: Rows): Rows {
    if write.Pending? then Combine(f, t, rows) else t
  }

  /** The tables once the writer has written what it holds. */
  ghost function Settled(w: Writer, t: Tables): Tables {
    match w.phase
    case Filling => Apply(t, w.acc)
    case Wave1(i, c) => Tables(Due(TakeFields, i, t.items, w.acc.items), Due(TakeFields, c, t.comps, w.acc.comps),
                               Combine(StayFirst, t.piis, w.acc.piis), Combine(JoinIds, t.conns, w.acc.conns))
    case Wave2(i, c) => Tables(t.items, t.comps,
                               Due(StayFirst, i, t.piis, w.acc.piis), Due(JoinIds, c, t.conns, w.acc.conns))
    case _ => t
  }

  /** The tables once the writer has also taken and written all its remaining spans. */
  ghost function Eventually(delta: Span -> Tables, w: Writer, t: Tables): Tables {
    Apply(Settled(w, t), Accumulated(delta, w.todo))
  }

  ghost predicate HasFailed(w: Writer) {
    || w.phase.Stopped?
    || (w.phase.Wave1? && (w.phase.items.Refused? || w.phase.comps.Refused?))
    || (w.phase.Wave2? && (w.phase.piis.Refused? || w.phase.conns.Refused?))
  }

  ghost predicate Ending(w: Writer) {
    w.last || w.phase.Owing? || w.phase.Done? ==> w.todo == []
  }

  lemma FirstSpan(delta: Span -> Tables, spans: seq<Span>)
    requires spans != []
    ensures Accumulated(delta, spans) == Apply(delta(spans[0]), Accumulated(delta, spans[1..]))
  {
    var one := [spans[0]];
    assert spans == one + spans[1..];
    AccumulatedConcat(delta, one, spans[1..]);
    assert one[..|one| - 1] == [] && one[|one| - 1] == spans[0];
    ApplyIdentity(delta(spans[0]));
  }

  lemma TakeSpanSettles(t: Tables, acc: Tables, first: Tables, rest: Tables)
    ensures Apply(Apply(t, acc), Apply(first, rest)) == Apply(Apply(t, Apply(acc, first)), rest)
  {
    ApplyAssociative(t, acc, first);
    ApplyAssociative(Apply(t, acc), first, rest);
  }

  lemma TakenSettles(w: Writer, acc: Tables, t: Tables)
    requires w.todo != []
    ensures Settled(Taken(w, acc), t) == Apply(t, acc)
  {
  }

  lemma TakenKeeps(delta: Span -> Tables, w: Writer, acc: Tables, t: Tables)
    requires w.phase.Filling? && w.todo != [] && acc == Apply(w.acc, delta(w.todo[0]))
    ensures Eventually(delta, Taken(w, acc), t) == Eventually(delta, w, t)
  {
    FirstSpan(delta, w.todo);
    TakeSpanSettles(t, w.acc, delta(w.todo[0]), Accumulated(delta, w.todo[1..]));
    TakenSettles(w, acc, t);
  }

  lemma TakenEnding(w: Writer, acc: Tables)
    requires Ending(w) && w.phase.Filling? && w.todo != []
    ensures Ending(Taken(w, acc)) && !HasFailed(w) && !HasFailed(Taken(w, acc))
  {
  }

  lemma WriteSettles<C, R>(a: WriterAction, l: Local<C, R>)
    ensures var l' := WriteStep(a, l); HasFailed(l'.w) || Settled(l'.w, l'.t) == Settled(l.w, l.t)
  {
    CombineIdentity(TakeFields, l.t.items);
    CombineIdentity(TakeFields, l.t.comps);
    CombineIdentity(StayFirst, l.t.piis);
    CombineIdentity(JoinIds, l.t.conns);
  }

  lemma BarrierSettles(w: Writer, t: Tables)
    requires !HasFailed(w)
    ensures Settled(PastBarrier(w), t) == Settled(w, t)
  {
    match w.phase
    case Wave1(i, c) => assert PastBarrier(w).acc == w.acc;
    case Wave2(i, c) => NothingHeld(t, PastBarrier(w));
    case _ =>
  }

  lemma NothingHeld(t: Tables, w: Writer)
    ensures w.acc == Empty() && w.phase.Filling? ==> Settled(w, t) == t
  {
    ApplyIdentity(t);
  }

  lemma BarrierEnding(w: Writer)
    requires Ending(w)
    ensures Ending(PastBarrier(w)) && (HasFailed(w) ==> HasFailed(PastBarrier(w))) && PastBarrier(w).todo == w.todo
  {
  }

  lemma WriteEnding<C, R>(a: WriterAction, l: Local<C, R>)
    requires Ending(l.w)
    ensures var w' := WriteStep(a, l).w; Ending(w') && (HasFailed(l.w) ==> HasFailed(w')) && w'.todo == l.w.todo
  {
  }

  lemma FinalFlushSettles<C, R>(l: Local<C, R>)
    requires Ending(l.w)
    ensures var l' := FinalFlushStep(l);
      && Ending(l'.w) && (HasFailed(l.w) ==> HasFailed(l'.w)) && l'.w.todo == l.w.todo && l'.t == l.t
      && Settled(l'.w, l'.t) == Settled(l.w, l.t)
  {
  }

  lemma FinishSettles<C, R>(l: Local<C, R>)
    requires Ending(l.w)
    ensures var l' := FinishStep(l);
      && Ending(l'.w) && (HasFailed(l.w) ==> HasFailed(l'.w)) && l'.w.todo == l.w.todo && l'.t == l.t
      && Settled(l'.w, l'.t) == Settled(l.w, l.t)
  {
  }

  /** due gives what the tables will be once a writer has written everything. */
  ghost predicate Dues(due: (Writer, Tables) -> Tables, delta: Span -> Tables) {
    forall w, t {:trigger Eventually(delta, w, t)} :: due(w, t) == Eventually(delta, w, t)
  }

  ghost function DuesOf(delta: Span -> Tables): (Writer, Tables) -> Tables {
    (w, t) => Eventually(delta, w, t)
  }

  /** A step loses nothing: what is stored plus what is still due stays, unless a write has failed. */
  ghost predicate Keeps<C, R>(due: (Writer, Tables) -> Tables, l: Local<C, R>, l': Local<C, R>) {
    && Ending(l'.w) && (HasFailed(l.w) ==> HasFailed(l'.w))
    && (HasFailed(l'.w) || due(l'.w, l'.t) == due(l.w, l.t))
  }

  lemma SameSettled<C, R>(due: (Writer, Tables) -> Tables, delta: Span -> Tables, l: Local<C, R>, l': Local<C, R>)
    requires Dues(due, delta) && Ending(l'.w) && (HasFailed(l.w) ==> HasFailed(l'.w)) && l'.w.todo == l.w.todo
    requires HasFailed(l'.w) || Settled(l'.w, l'.t) == Settled(l.w, l.t)
    ensures Keeps(due, l, l')
  {
    assert due(l'.w, l'.t) == Eventually(delta, l'.w, l'.t) && due(l.w, l.t) == Eventually(delta, l.w, l.t);
  }

  lemma TakenKeepsAll<C, R>(due: (Writer, Tables) -> Tables, delta: Span -> Tables, l: Local<C, R>, acc: Tables)
    requires Dues(due, delta) && Ending(l.w)
    requires l.w.phase.Filling? && l.w.todo != [] && acc == Apply(l.w.acc, delta(l.w.todo[0]))
    ensures Keeps(due, l, l.(w := Taken(l.w, acc)))
  {
    TakenKeeps(delta, l.w, acc, l.t);
    TakenEnding(l.w, acc);
  }

  lemma BarrierKeeps<C, R>(due: (Writer, Tables) -> Tables, delta: Span -> Tables, l: Local<C, R>)
    requires Dues(due, delta) && Ending(l.w)
    ensures Keeps(due, l, l.(w := PastBarrier(l.w)))
  {
    BarrierEnding(l.w);
    if !HasFailed(l.w) { BarrierSettles(l.w, l.t); }
    SameSettled(due, delta, l, l.(w := PastBarrier(l.w)));
  }

  /** A writer that is still going only moves rows from what is due to what is stored. */
  lemma WriterStepKeeps<C, R>(p: Program<C, R>, due: (Writer, Tables) -> Tables, a: WriterAction, l: Local<C, R>)
    requires Dues(due, p.delta) && Ending(l.w)
    ensures Keeps(due, l, WriterStep(p, a, l))
  {
    match a
    case TakeSpan =>
      if l.w.phase.Filling? && l.w.todo != [] {
        TakenKeepsAll(due, p.delta, l, Apply(l.w.acc, p.delta(l.w.todo[0])));
      }
    case FinalFlush =>
      FinalFlushSettles(l);
      SameSettled(due, p.delta, l, FinalFlushStep(l));
    case Barrier =>
      BarrierKeeps(due, p.delta, l);
    case Finish =>
      FinishSettles(l);
      SameSettled(due, p.delta, l, FinishStep(l));
    case _ =>
      WriteSettles(a, l);
      WriteEnding(a, l);
      SameSettled(due, p.delta, l, WriteStep(a, l));
  }

  lemma AtStart(delta: Span -> Tables, w: Writer, t: Tables)
    requires Starting(w)
    ensures Ending(w) && Eventually(delta, w, t) == Apply(t, Accumulated(delta, w.todo))
  {
    NothingHeld(t, w);
  }

  lemma AtEnd(delta: Span -> Tables, w: Writer, t: Tables)
    requires Ending(w) && w.phase.Done?
    ensures !HasFailed(w) && Eventually(delta, w, t) == t
  {
    ApplyIdentity(t);
  }

  ghost predicate OneInv<C, R>(due: (Writer, Tables) -> Tables, s: Sys<C, R>, i: nat, goal: Tables) {
    && s.writers.Keys == {i} && Ending(s.writers[i])
    && (HasFailed(s.writers[i]) || due(s.writers[i], s.t) == goal)
  }

  lemma {:induction false} RunKeepsOne<C, R>(p: Program<C, R>, due: (Writer, Tables) -> Tables,
      run: seq<Action>, s: Sys<C, R>, i: nat, goal: Tables)
    requires Dues(due, p.delta) && OneInv(due, s, i, goal)
    ensures OneInv(due, Run(p, run, s), i, goal)
  {
    if run != [] {
      RunKeepsOne(p, due, run[..|run| - 1], s, i, goal);
      var s1 := Run(p, run[..|run| - 1], s);
      match run[|run| - 1]
      case ByWriter(k, a) =>
        if k in s1.writers { WriterStepKeeps(p, due, a, Local(s1.writers[k], s1.t, s1.cache)); }
      case ByReader(j, a) =>
    }
  }

  /**
   * Whatever the threshold, the order of the writes in each wave and the requests in between: if
   * the call ends well, the tables are those of one flush of all its spans.
   */
  lemma OneWriterComputesProcess<C, R>(p: Program<C, R>, run: seq<Action>, s: Sys<C, R>, i: nat)
    requires Initial(p, s) && s.writers.Keys == {i}
    ensures var s' := Run(p, run, s);
      i in s'.writers && (s'.writers[i].phase.Done? ==> s'.t == Apply(s.t, Accumulated(p.delta, s.writers[i].todo)))
  {
    var goal := Apply(s.t, Accumulated(p.delta, s.writers[i].todo));
    AtStart(p.delta, s.writers[i], s.t);
    RunKeepsOne(p, DuesOf(p.delta), run, s, i, goal);
    var w, t := Run(p, run, s).writers[i], Run(p, run, s).t;
    if w.phase.Done? {
      AtEnd(p.delta, w, t);
    }
  }
}
