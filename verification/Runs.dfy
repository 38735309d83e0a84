/** Composing runs, and the run in which a writer stores its one span up to the second wave. */
module Runs {
  import opened Values
  import opened Spans
  import opened Accumulation
  import opened Responses
  import opened Protocol

  lemma {:induction false} RunConcat<C, R>(p: Program<C, R>, xs: seq<Action>, ys: seq<Action>, s: Sys<C, R>)
    ensures Run(p, xs + ys, s) == Run(p, ys, Run(p, xs, s))
  {
    if ys == [] {
      ConcatNothing(xs, ys);
    } else {
      FrontOfConcat(xs, ys);
      RunConcat(p, xs, ys[..|ys| - 1], s);
    }
  }

  lemma RunNext<C, R>(p: Program<C, R>, run: seq<Action>, a: Action, s: Sys<C, R>)
    ensures Run(p, run + [a], s) == Exec(p, a, Run(p, run, s))
  {
    FrontOfConcat(run, [a]);
    ConcatNothing(run, []);
  }

  /** Writer i takes its one span and starts its final flush. */
  function StartRun(i: nat): seq<Action> {
    [] + [ByWriter(i, TakeSpan)] + [ByWriter(i, FinalFlush)]
  }

  lemma StartsFlush<C, R>(p: Program<C, R>, s: Sys<C, R>, i: nat, x: Span)
    requires i in s.writers && s.writers[i] == NewWriter([x], 0, true)
    ensures Run(p, StartRun(i), s) ==
      s.(writers := s.writers[i := Writer([], p.delta(x), Wave1(Pending, Pending), true, false, 0, 1, 0, true)])
  {
    ApplyIdentity(p.delta(x));
    assert [x][1..] == [];
    var a0: seq<Action> := [];
    RunNext(p, a0, ByWriter(i, TakeSpan), s);
    RunNext(p, a0 + [ByWriter(i, TakeSpan)], ByWriter(i, FinalFlush), s);
  }

  /** Writer i stores its app items and components and passes the barrier. */
  function StoreRun(i: nat): seq<Action> {
    [] + [ByWriter(i, WriteItems(true))] + [ByWriter(i, WriteComps(true))] + [ByWriter(i, Barrier)]
  }

  lemma StoresFirstWave<C, R>(p: Program<C, R>, s: Sys<C, R>, i: nat)
    requires i in s.writers && s.writers[i].phase == Wave1(Pending, Pending)
    ensures var w := s.writers[i]; var f := Run(p, StoreRun(i), s);
      && f.readers == s.readers && f.cache == s.cache
      && i in f.writers && f.writers[i].phase == Wave2(Pending, Pending) && f.writers[i].acc == w.acc
      && f.t == s.t.(items := After(TakeFields, s.t.items, w.acc.items, true),
                     comps := After(TakeFields, s.t.comps, w.acc.comps, true))
  {
    var a0: seq<Action> := [];
    var a1 := a0 + [ByWriter(i, WriteItems(true))];
    var a2 := a1 + [ByWriter(i, WriteComps(true))];
    RunNext(p, a0, ByWriter(i, WriteItems(true)), s);
    RunNext(p, a1, ByWriter(i, WriteComps(true)), s);
    RunNext(p, a2, ByWriter(i, Barrier), s);
  }
}
