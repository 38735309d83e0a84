/** Any number of calls of Process at once: no row and no listed component is lost. */
module ManyWriters {
  import opened Values
  import opened Combining
  import opened UniqueMerge
  import opened Spans
  import opened Accumulation
  import opened Responses
  import opened Protocol
  import opened OneWriter

  // ----- what tables say, whatever order it was written in -----

  datatype Fact =
    | Item(name: string)
    | Comp(id: string)
    | Finding(id: string)
    | Conn(id: string)
    | Lists(conn: string, comp: string)

  /** A row exists, or a connection lists a component. */
  ghost predicate Says(t: Tables, x: Fact) {
    match x
    case Item(n) => n in t.items
    case Comp(id) => id in t.comps
    case Finding(id) => id in t.piis
    case Conn(id) => id in t.conns
    case Lists(k, c) => k in t.conns && c in Ids(t.conns[k])
  }

  lemma ListsUnite(t: Rows, a: Rows, k: string, c: string)
    ensures var j := Combine(JoinIds, t, a);
      (k in j && c in Ids(j[k])) <==> (k in t && c in Ids(t[k])) || (k in a && c in Ids(a[k]))
  {
    CombineAt(JoinIds, t, a, k);
    if k in t && k in a {
      MergeHas(Ids(t[k]), Ids(a[k]), c);
    }
  }

  /** A flush adds facts and never takes one back. */
  lemma FactsUnite(t: Tables, a: Tables, x: Fact)
    ensures Says(Apply(t, a), x) <==> Says(t, x) || Says(a, x)
  {
    match x
    case Item(n) => CombineAt(TakeFields, t.items, a.items, n);
    case Comp(id) => CombineAt(TakeFields, t.comps, a.comps, id);
    case Finding(id) => CombineAt(StayFirst, t.piis, a.piis, id);
    case Conn(id) => CombineAt(JoinIds, t.conns, a.conns, id);
    case Lists(k, c) => ListsUnite(t.conns, a.conns, k, c);
  }

  // ----- one writer -----

  ghost function Pend(write: Write, rows: Rows): Rows {
    if write.Pending? then rows else map[]
  }

  /** The rows that the writer holds and has not tried to write yet. */
  ghost function Due(w: Writer): Tables {
    match w.phase
    case Filling => w.acc
    case Wave1(i, c) => Tables(Pend(i, w.acc.items), Pend(c, w.acc.comps), w.acc.piis, w.acc.conns)
    case Wave2(i, c) => Tables(map[], map[], Pend(i, w.acc.piis), Pend(c, w.acc.conns))
    case _ => Empty()
  }

  /** The writer will say so once it has written all it holds and all its remaining spans. */
  ghost predicate WillSay(delta: Span -> Tables, w: Writer, x: Fact) {
    Says(Due(w), x) || Says(Accumulated(delta, w.todo), x)
  }

  lemma TakenDue(w: Writer, acc: Tables)
    requires w.todo != []
    ensures Due(Taken(w, acc)) == acc
  {
  }

  lemma TakenFacts(delta: Span -> Tables, w: Writer, x: Fact)
    requires w.phase.Filling? && w.todo != []
    ensures WillSay(delta, Taken(w, Apply(w.acc, delta(w.todo[0]))), x) <==> WillSay(delta, w, x)
  {
    var first, rest := delta(w.todo[0]), Accumulated(delta, w.todo[1..]);
    FirstSpan(delta, w.todo);
    FactsUnite(first, rest, x);
    FactsUnite(w.acc, first, x);
    TakenDue(w, Apply(w.acc, first));
  }

  lemma AfterUnites(f: (Record, Record) -> Record, t: Rows, rows: Rows, ok: bool, k: string)
    ensures Tried(rows, ok).Written? ==> (k in After(f, t, rows, ok) <==> k in t || k in rows)
  {
  }

  lemma AfterListsUnite(t: Rows, rows: Rows, ok: bool, k: string, c: string)
    ensures var j := After(JoinIds, t, rows, ok);
      Tried(rows, ok).Written? ==>
        ((k in j && c in Ids(j[k])) <==> (k in t && c in Ids(t[k])) || (k in rows && c in Ids(rows[k])))
  {
    ListsUnite(t, rows, k, c);
  }

  /** A write that is not refused moves facts from what is due to what is stored. */
  lemma WriteMovesFacts<C, R>(a: WriterAction, l: Local<C, R>, x: Fact)
    ensures var l' := WriteStep(a, l);
      HasFailed(l'.w) || ((Says(l'.t, x) || Says(Due(l'.w), x)) <==> (Says(l.t, x) || Says(Due(l.w), x)))
  {
    match a
    case WriteItems(ok) => if x.Item? { AfterUnites(TakeFields, l.t.items, l.w.acc.items, ok, x.name); }
    case WriteComps(ok) => if x.Comp? { AfterUnites(TakeFields, l.t.comps, l.w.acc.comps, ok, x.id); }
    case WritePiis(ok) => if x.Finding? { AfterUnites(StayFirst, l.t.piis, l.w.acc.piis, ok, x.id); }
    case WriteConns(ok) =>
      if x.Conn? { AfterUnites(JoinIds, l.t.conns, l.w.acc.conns, ok, x.id); }
      if x.Lists? { AfterListsUnite(l.t.conns, l.w.acc.conns, ok, x.conn, x.comp); }
    case _ =>
  }

  lemma BarrierFacts(w: Writer, x: Fact)
    requires !HasFailed(w)
    ensures Says(Due(PastBarrier(w)), x) <==> Says(Due(w), x)
  {
  }

  lemma FinalFlushFacts<C, R>(l: Local<C, R>, x: Fact)
    ensures var l' := FinalFlushStep(l);
      && (HasFailed(l.w) ==> HasFailed(l'.w)) && l'.w.todo == l.w.todo && l'.t == l.t
      && (Says(Due(l'.w), x) <==> Says(Due(l.w), x))
  {
  }

  lemma FinishFacts<C, R>(l: Local<C, R>, x: Fact)
    ensures var l' := FinishStep(l);
      && (HasFailed(l.w) ==> HasFailed(l'.w)) && l'.w.todo == l.w.todo && l'.t == l.t
      && (Says(Due(l'.w), x) <==> Says(Due(l.w), x))
  {
  }

  /** A step takes no fact back: it is stored or still due, unless a write has failed. */
  ghost predicate KeepsFact<C, R>(delta: Span -> Tables, l: Local<C, R>, l': Local<C, R>, x: Fact) {
    && (HasFailed(l.w) ==> HasFailed(l'.w))
    && (HasFailed(l'.w) || ((Says(l'.t, x) || WillSay(delta, l'.w, x)) <==> (Says(l.t, x) || WillSay(delta, l.w, x))))
  }

  lemma SameDue<C, R>(delta: Span -> Tables, l: Local<C, R>, l': Local<C, R>, x: Fact)
    requires (HasFailed(l.w) ==> HasFailed(l'.w)) && l'.w.todo == l.w.todo
    requires HasFailed(l'.w) || ((Says(l'.t, x) || Says(Due(l'.w), x)) <==> (Says(l.t, x) || Says(Due(l.w), x)))
    ensures KeepsFact(delta, l, l', x)
  {
  }

  lemma TakeSpanKeepsFact<C, R>(p: Program<C, R>, l: Local<C, R>, x: Fact)
    ensures KeepsFact(p.delta, l, TakeSpanStep(p, l), x)
  {
    if l.w.phase.Filling? && l.w.todo != [] { TakenFacts(p.delta, l.w, x); }
  }

  /** Until a write fails, facts only move from what is due to what is stored. */
  lemma WriterStepFacts<C, R>(p: Program<C, R>, a: WriterAction, l: Local<C, R>, x: Fact)
    requires Ending(l.w)
    ensures KeepsFact(p.delta, l, WriterStep(p, a, l), x)
  {
    match a
    case TakeSpan =>
      TakeSpanKeepsFact(p, l, x);
    case FinalFlush =>
      FinalFlushFacts(l, x);
      SameDue(p.delta, l, FinalFlushStep(l), x);
    case Barrier =>
      BarrierEnding(l.w);
      if !HasFailed(l.w) { BarrierFacts(l.w, x); }
      SameDue(p.delta, l, l.(w := PastBarrier(l.w)), x);
    case Finish =>
      FinishFacts(l, x);
      SameDue(p.delta, l, FinishStep(l), x);
    case _ =>
      WriteMovesFacts(a, l, x);
      WriteEnding(a, l);
      SameDue(p.delta, l, WriteStep(a, l), x);
  }

  lemma WriterStepEnding<C, R>(p: Program<C, R>, a: WriterAction, l: Local<C, R>)
    requires Ending(l.w)
    ensures Ending(WriterStep(p, a, l).w)
  {
  }

  // ----- all writers together -----

  ghost predicate SomeWillSay(delta: Span -> Tables, writers: map<nat, Writer>, x: Fact) {
    exists i :: i in writers && WillSay(delta, writers[i], x)
  }

  lemma SomeSplits(delta: Span -> Tables, writers: map<nat, Writer>, i: nat, w: Writer, x: Fact)
    requires i in writers
    ensures SomeWillSay(delta, writers, x) <==> WillSay(delta, writers[i], x) || SomeWillSay(delta, writers - {i}, x)
    ensures SomeWillSay(delta, writers[i := w], x) <==> WillSay(delta, w, x) || SomeWillSay(delta, writers - {i}, x)
  {
    var rest, more := writers - {i}, writers[i := w];
    if j :| j in rest && WillSay(delta, rest[j], x) {
      assert j in writers && writers[j] == rest[j] && j in more && more[j] == rest[j];
    }
    if j :| j in writers && WillSay(delta, writers[j], x) {
      assert j != i ==> j in rest && rest[j] == writers[j];
    }
    if j :| j in more && WillSay(delta, more[j], x) {
      assert j != i ==> j in rest && rest[j] == more[j];
    }
    assert i in more && more[i] == w;
  }

  ghost predicate SomeFailed(writers: map<nat, Writer>) {
    exists i :: i in writers && HasFailed(writers[i])
  }

  ghost predicate FactInv<C, R>(p: Program<C, R>, s: Sys<C, R>, x: Fact, goal: bool) {
    && (forall i :: i in s.writers ==> Ending(s.writers[i]))
    && (SomeFailed(s.writers) || ((Says(s.t, x) || SomeWillSay(p.delta, s.writers, x)) <==> goal))
  }

  lemma FailureStays(writers: map<nat, Writer>, i: nat, w: Writer)
    requires i in writers && (HasFailed(writers[i]) ==> HasFailed(w))
    ensures SomeFailed(writers) || HasFailed(w) ==> SomeFailed(writers[i := w])
  {
    assert i in writers[i := w] && writers[i := w][i] == w;
    if j :| j in writers && HasFailed(writers[j]) {
      assert j in writers[i := w] && HasFailed(writers[i := w][j]);
    }
  }

  lemma WriterKeepsFacts<C, R>(p: Program<C, R>, i: nat, a: WriterAction, s: Sys<C, R>, x: Fact, goal: bool)
    requires FactInv(p, s, x, goal) && i in s.writers
    ensures FactInv(p, Exec(p, ByWriter(i, a), s), x, goal)
  {
    var l := Local(s.writers[i], s.t, s.cache);
    var l' := WriterStep(p, a, l);
    WriterStepFacts(p, a, l, x);
    WriterStepEnding(p, a, l);
    FailureStays(s.writers, i, l'.w);
    SomeSplits(p.delta, s.writers, i, l'.w, x);
  }

  lemma StepKeepsFacts<C, R>(p: Program<C, R>, act: Action, s: Sys<C, R>, x: Fact, goal: bool)
    requires FactInv(p, s, x, goal)
    ensures FactInv(p, Exec(p, act, s), x, goal)
  {
    match act
    case ByWriter(i, a) => if i in s.writers { WriterKeepsFacts(p, i, a, s, x, goal); }
    case ByReader(j, a) =>
  }

  lemma {:induction false} RunKeepsFacts<C, R>(p: Program<C, R>, run: seq<Action>, s: Sys<C, R>, x: Fact, goal: bool)
    requires FactInv(p, s, x, goal)
    ensures FactInv(p, Run(p, run, s), x, goal)
  {
    if run != [] {
      RunKeepsFacts(p, run[..|run| - 1], s, x, goal);
      StepKeepsFacts(p, run[|run| - 1], Run(p, run[..|run| - 1], s), x, goal);
    }
  }

  /** The spans of one of the calls say so. */
  ghost predicate Contributed(delta: Span -> Tables, writers: map<nat, Writer>, x: Fact) {
    exists i :: i in writers && Says(Accumulated(delta, writers[i].todo), x)
  }

  lemma NothingSaid(x: Fact)
    ensures !Says(Empty(), x)
  {
  }

  lemma DueAtStart(delta: Span -> Tables, writers: map<nat, Writer>, x: Fact)
    requires forall i :: i in writers ==> Starting(writers[i])
    ensures SomeWillSay(delta, writers, x) <==> Contributed(delta, writers, x)
  {
    NothingSaid(x);
    forall i | i in writers
      ensures WillSay(delta, writers[i], x) <==> Says(Accumulated(delta, writers[i].todo), x)
    {
      assert Starting(writers[i]);
    }
  }

  lemma DueAtEnd(delta: Span -> Tables, writers: map<nat, Writer>, x: Fact)
    requires forall i :: i in writers ==> writers[i].phase.Done? && Ending(writers[i])
    ensures !SomeWillSay(delta, writers, x) && !SomeFailed(writers)
  {
    NothingSaid(x);
    forall i | i in writers
      ensures !WillSay(delta, writers[i], x)
    {
      assert Ending(writers[i]) && Accumulated(delta, []) == Empty();
    }
  }

  /**
   * However many calls run at once, in whatever interleaving with each other and with requests: if
   * all of them end well, each table has the rows it had and those of every call, and each connection
   * lists the components it listed and those that any call contributed.  No update is lost.
   */
  lemma NothingIsLost<C, R>(p: Program<C, R>, run: seq<Action>, s: Sys<C, R>, x: Fact)
    requires Initial(p, s)
    requires forall i :: i in Run(p, run, s).writers ==> Run(p, run, s).writers[i].phase.Done?
    ensures Says(Run(p, run, s).t, x) <==> Says(s.t, x) || Contributed(p.delta, s.writers, x)
  {
    var goal := Says(s.t, x) || Contributed(p.delta, s.writers, x);
    DueAtStart(p.delta, s.writers, x);
    forall i | i in s.writers
      ensures Ending(s.writers[i])
    {
      assert Starting(s.writers[i]);
    }
    RunKeepsFacts(p, run, s, x, goal);
    DueAtEnd(p.delta, Run(p, run, s).writers, x);
  }
}
