/** References between tables in every reachable state, whatever the interleaving and whatever fails. */
module References {
  import opened Combining
  import opened Accumulation
  import opened Integrity
  import opened Protocol

  // ----- one writer -----

  /** The rows that the writer has safely behind it are in the tables. */
  ghost predicate Behind(w: Writer, items: set<string>, comps: set<string>) {
    && (w.phase.Wave1? && w.phase.items.Written? ==> w.acc.items.Keys <= items)
    && (w.phase.Wave1? && w.phase.comps.Written? ==> w.acc.comps.Keys <= comps)
    && (w.phase.Wave2? ==> w.acc.items.Keys <= items && w.acc.comps.Keys <= comps)
  }

  /** The components are stored but the app items that own them are not, or not yet. */
  ghost predicate Unsettled(w: Writer) {
    || (w.phase.Wave1? && w.phase.comps.Written? && !w.phase.items.Written?)
    || (w.phase.Stopped? && w.phase.unowned)
  }

  ghost predicate WriterOk(w: Writer, t: Tables) {
    Closed(w.acc) && Behind(w, t.items.Keys, t.comps.Keys)
  }

  /** The owners that are missing on account of a writer. */
  ghost function OwedBy(w: Writer): set<string> {
    if Unsettled(w) then w.acc.items.Keys else {}
  }

  ghost predicate Grown(t: Tables, u: Tables) {
    t.items.Keys <= u.items.Keys && t.comps.Keys <= u.comps.Keys
  }

  ghost predicate HasOwners(names: set<string>, comps: Rows) {
    AllRows(HasOwner(names), comps)
  }

  lemma HasOwnersGrows(names: set<string>, more: set<string>, comps: Rows)
    requires HasOwners(names, comps) && names <= more
    ensures HasOwners(more, comps)
  {
    forall k | k in comps
      ensures HasOwner(more)(k, comps[k])
    {
      assert HasOwner(names)(k, comps[k]);
    }
  }

  lemma HasOwnersCombines(names: set<string>, t: Rows, a: Rows)
    requires HasOwners(names, t) && HasOwners(names, a)
    ensures HasOwners(names, Combine(TakeFields, t, a))
  {
    CombineKeeps(TakeFields, HasOwner(names), t, a);
  }

  ghost predicate Sound(t: Tables, owners: set<string>) {
    Attached(t.comps, t.piis) && Linked(t.items, t.comps, t.conns) && HasOwners(t.items.Keys + owners, t.comps)
  }

  /** A step keeps references good; owners are those that other writers still owe. */
  ghost predicate StepOk<C, R>(l: Local<C, R>, l': Local<C, R>, owners: set<string>) {
    && Grown(l.t, l'.t) && WriterOk(l'.w, l'.t) && Sound(l'.t, owners + OwedBy(l'.w))
  }

  lemma ItemsGrow(t: Tables, items: Rows, owners: set<string>, more: set<string>)
    requires Sound(t, owners) && t.items.Keys + owners <= items.Keys + more && t.items.Keys <= items.Keys
    ensures Sound(t.(items := items), more)
  {
    LinkedGrows(t.items, items, t.comps, t.comps, t.conns);
    HasOwnersGrows(t.items.Keys + owners, items.Keys + more, t.comps);
  }

  lemma WriteItemsOk<C, R>(l: Local<C, R>, ok: bool, owners: set<string>)
    requires WriterOk(l.w, l.t) && Sound(l.t, owners + OwedBy(l.w))
    ensures StepOk(l, WriteStep(WriteItems(ok), l), owners)
  {
    var l' := WriteStep(WriteItems(ok), l);
    ItemsGrow(l.t, l'.t.items, owners + OwedBy(l.w), owners + OwedBy(l'.w));
  }

  lemma WriteCompsOk<C, R>(l: Local<C, R>, ok: bool, owners: set<string>)
    requires WriterOk(l.w, l.t) && Sound(l.t, owners + OwedBy(l.w))
    ensures StepOk(l, WriteStep(WriteComps(ok), l), owners)
  {
    var l' := WriteStep(WriteComps(ok), l);
    var t, comps := l.t, l'.t.comps;
    var names := t.items.Keys + owners + OwedBy(l'.w);
    AttachedGrows(t.comps, comps, t.piis);
    LinkedGrows(t.items, t.items, t.comps, comps, t.conns);
    HasOwnersGrows(t.items.Keys + (owners + OwedBy(l.w)), names, t.comps);
    if comps != t.comps {
      HasOwnersGrows(l.w.acc.items.Keys, names, l.w.acc.comps);
      HasOwnersCombines(names, t.comps, l.w.acc.comps);
    }
    assert names == t.items.Keys + (owners + OwedBy(l'.w));
  }

  lemma WritePiisOk<C, R>(l: Local<C, R>, ok: bool, owners: set<string>)
    requires WriterOk(l.w, l.t) && Sound(l.t, owners + OwedBy(l.w))
    ensures StepOk(l, WriteStep(WritePiis(ok), l), owners)
  {
    if l.w.phase.Wave2? {
      AttachedGrows(l.w.acc.comps, l.t.comps, l.w.acc.piis);
      AttachedCombines(l.t.comps, l.t.piis, l.w.acc.piis);
    }
  }

  lemma WriteConnsOk<C, R>(l: Local<C, R>, ok: bool, owners: set<string>)
    requires WriterOk(l.w, l.t) && Sound(l.t, owners + OwedBy(l.w))
    ensures StepOk(l, WriteStep(WriteConns(ok), l), owners)
  {
    if l.w.phase.Wave2? {
      LinkedGrows(l.w.acc.items, l.t.items, l.w.acc.comps, l.t.comps, l.w.acc.conns);
      LinkedCombines(l.t.items, l.t.comps, l.t.conns, l.w.acc.conns);
    }
  }

  lemma TakeSpanOk<C, R>(p: Program<C, R>, l: Local<C, R>, owners: set<string>)
    requires WriterOk(l.w, l.t) && Sound(l.t, owners + OwedBy(l.w)) && AllClosed(p.delta)
    ensures StepOk(l, TakeSpanStep(p, l), owners)
  {
    if l.w.todo != [] {
      ApplyClosed(l.w.acc, p.delta(l.w.todo[0]));
    }
  }

  lemma EmptyClosed()
    ensures Closed(Empty())
  {
  }

  lemma BarrierBehind(w: Writer, items: set<string>, comps: set<string>)
    requires Behind(w, items, comps)
    ensures Behind(PastBarrier(w), items, comps) && OwedBy(PastBarrier(w)) == OwedBy(w)
  {
  }

  lemma BarrierOk(w: Writer, t: Tables)
    requires WriterOk(w, t)
    ensures WriterOk(PastBarrier(w), t) && OwedBy(PastBarrier(w)) == OwedBy(w)
  {
    BarrierBehind(w, t.items.Keys, t.comps.Keys);
    if PastBarrier(w).acc != w.acc {
      EmptyClosed();
    }
  }

  /** A step that touches no table and moves no write. */
  lemma QuietOk<C, R>(l: Local<C, R>, l': Local<C, R>, owners: set<string>)
    requires WriterOk(l.w, l.t) && Sound(l.t, owners + OwedBy(l.w))
    requires l'.t == l.t && l'.w.acc == l.w.acc
    requires l' == l || (!Unsettled(l'.w) && !Unsettled(l.w) && Behind(l'.w, l.t.items.Keys, l.t.comps.Keys))
    ensures StepOk(l, l', owners)
  {
  }

  lemma WriterStepOk<C, R>(p: Program<C, R>, a: WriterAction, l: Local<C, R>, owners: set<string>)
    requires WriterOk(l.w, l.t) && Sound(l.t, owners + OwedBy(l.w)) && AllClosed(p.delta)
    ensures StepOk(l, WriterStep(p, a, l), owners)
  {
    match a
    case TakeSpan => TakeSpanOk(p, l, owners);
    case FinalFlush => QuietOk(l, FinalFlushStep(l), owners);
    case WriteItems(ok) => WriteItemsOk(l, ok, owners);
    case WriteComps(ok) => WriteCompsOk(l, ok, owners);
    case WritePiis(ok) => WritePiisOk(l, ok, owners);
    case WriteConns(ok) => WriteConnsOk(l, ok, owners);
    case Barrier => BarrierOk(l.w, l.t);
    case Finish => QuietOk(l, FinishStep(l), owners);
  }

  // ----- all writers together -----

  /** The owners that are missing on account of all writers but i. */
  ghost function OwedExcept(writers: map<nat, Writer>, i: nat): set<string> {
    set j, n | j in writers && j != i && n in OwedBy(writers[j]) :: n
  }

  ghost function Owed(writers: map<nat, Writer>): set<string> {
    set j, n | j in writers && n in OwedBy(writers[j]) :: n
  }

  lemma OwedSplits(writers: map<nat, Writer>, i: nat, w: Writer)
    requires i in writers
    ensures Owed(writers) == OwedExcept(writers, i) + OwedBy(writers[i])
    ensures Owed(writers[i := w]) == OwedExcept(writers, i) + OwedBy(w)
  {
    var more := writers[i := w];
    forall n
      ensures n in Owed(more) <==> n in OwedExcept(writers, i) + OwedBy(w)
    {
      if n in OwedBy(w) { assert i in more && n in OwedBy(more[i]); }
      if n in OwedExcept(writers, i) {
        var j :| j in writers && j != i && n in OwedBy(writers[j]);
        assert j in more && n in OwedBy(more[j]);
      }
    }
  }

  lemma NothingOwed(writers: map<nat, Writer>)
    requires forall i :: i in writers ==> !Unsettled(writers[i])
    ensures Owed(writers) == {}
  {
  }

  ghost predicate WritersOk(writers: map<nat, Writer>, t: Tables) {
    forall i :: i in writers ==> WriterOk(writers[i], t)
  }

  ghost predicate RefInv<C, R>(s: Sys<C, R>) {
    WritersOk(s.writers, s.t) && Sound(s.t, Owed(s.writers))
  }

  lemma WritersGrow(writers: map<nat, Writer>, t: Tables, u: Tables)
    requires WritersOk(writers, t) && Grown(t, u)
    ensures WritersOk(writers, u)
  {
    forall i | i in writers
      ensures WriterOk(writers[i], u)
    {
      BehindGrows(writers[i], t.items.Keys, u.items.Keys, t.comps.Keys, u.comps.Keys);
    }
  }

  lemma BehindGrows(w: Writer, items: set<string>, items': set<string>, comps: set<string>, comps': set<string>)
    requires Behind(w, items, comps) && items <= items' && comps <= comps'
    ensures Behind(w, items', comps')
  {
  }

  lemma OthersGrow(writers: map<nat, Writer>, i: nat, w: Writer, t: Tables, u: Tables)
    requires WritersOk(writers, t) && Grown(t, u) && WriterOk(w, u)
    ensures WritersOk(writers[i := w], u)
  {
    WritersGrow(writers, t, u);
  }

  lemma StepKeepsReferences<C, R>(p: Program<C, R>, a: Action, s: Sys<C, R>)
    requires RefInv(s) && AllClosed(p.delta)
    ensures RefInv(Exec(p, a, s)) && Grown(s.t, Exec(p, a, s).t)
  {
    if a.ByWriter? && a.i in s.writers {
      var l := Local(s.writers[a.i], s.t, s.cache);
      var l' := WriterStep(p, a.w, l);
      OwedSplits(s.writers, a.i, l'.w);
      WriterStepOk(p, a.w, l, OwedExcept(s.writers, a.i));
      OthersGrow(s.writers, a.i, l'.w, s.t, l'.t);
    }
  }

  lemma {:induction false} RunKeepsReferences<C, R>(p: Program<C, R>, run: seq<Action>, s: Sys<C, R>)
    requires RefInv(s) && AllClosed(p.delta)
    ensures RefInv(Run(p, run, s))
  {
    if run != [] {
      RunKeepsReferences(p, run[..|run| - 1], s);
      StepKeepsReferences(p, run[|run| - 1], Run(p, run[..|run| - 1], s));
    }
  }

  lemma StartsSound<C, R>(p: Program<C, R>, s: Sys<C, R>)
    requires Initial(p, s) && Closed(s.t)
    ensures RefInv(s)
  {
    EmptyClosed();
    NothingOwed(s.writers);
    forall i | i in s.writers
      ensures WriterOk(s.writers[i], s.t)
    {
      assert Starting(s.writers[i]);
    }
    HasOwnersGrows(s.t.items.Keys, s.t.items.Keys + Owed(s.writers), s.t.comps);
  }

  /**
   * In every reachable state, with writes in any order and any of them failing: findings and
   * connections refer to stored components, connections to stored app items; and components belong
   * to stored app items unless some writer has stored its components without its app items.
   */
  lemma ReferencesHold<C, R>(p: Program<C, R>, run: seq<Action>, s: Sys<C, R>)
    requires Initial(p, s) && Closed(s.t) && AllClosed(p.delta)
    ensures var s' := Run(p, run, s);
      && Attached(s'.t.comps, s'.t.piis) && Linked(s'.t.items, s'.t.comps, s'.t.conns)
      && ((forall i :: i in s'.writers ==> !Unsettled(s'.writers[i])) ==> Owned(s'.t.items, s'.t.comps))
  {
    StartsSound(p, s);
    RunKeepsReferences(p, run, s);
    var s' := Run(p, run, s);
    if forall i :: i in s'.writers ==> !Unsettled(s'.writers[i]) {
      NothingOwed(s'.writers);
      assert s'.t.items.Keys + Owed(s'.writers) == s'.t.items.Keys;
    }
  }
}
