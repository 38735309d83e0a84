/** How many rows spans contribute to the four maps. */
module Sizes {
  import opened Combining
  import opened Spans
  import opened Accumulation

  lemma SubsetSize<T>(a: set<T>, b: set<T>)
    requires a <= b
    ensures |a| <= |b|
  {
    assert b == a + (b - a);
  }

  ghost function Images<T(!new)>(n: nat, f: int -> T): set<T> {
    set i | 0 <= i < n :: f(i)
  }

  lemma {:induction false} ImagesSize<T(!new)>(n: nat, f: int -> T)
    ensures |Images(n, f)| <= n
  {
    if n > 0 {
      ImagesSize(n - 1, f);
      assert Images(n, f) == Images(n - 1, f) + {f(n - 1)};
    } else {
      assert Images(n, f) == {};
    }
  }

  lemma PiiRowsSize(comp: string, kinds: set<string>, n: nat, kindAt: int -> string)
    requires forall k :: k in kinds ==> exists i :: 0 <= i < n && kindAt(i) == k
    ensures |PiiRows(comp, kinds)| <= n
  {
    var idAt := (i: int) => PiiId(comp, kindAt(i));
    ImagesSize(n, idAt);
    PiiRowsWellFormed(comp, kinds);
    forall id | id in PiiRows(comp, kinds)
      ensures id in Images(n, idAt)
    {
      var k :| k in kinds && id == PiiId(comp, k);
      var i :| 0 <= i < n && kindAt(i) == k;
      assert idAt(i) == id;
    }
    SubsetSize(PiiRows(comp, kinds).Keys, Images(n, idAt));
  }

  lemma FindingsSize(cfg: Config, s: Span)
    ensures |Delta(cfg, s).piis| <= |cfg.detectors|
  {
    var kindAt := (i: int) => if 0 <= i < |cfg.detectors| then cfg.detectors[i].kind else "";
    forall k | k in Kinds(cfg, s)
      ensures exists i :: 0 <= i < |cfg.detectors| && kindAt(i) == k
    {
      var i :| 0 <= i < |cfg.detectors| && k == cfg.detectors[i].kind;
      assert kindAt(i) == k;
    }
    PiiRowsSize(ComponentId(cfg, s), Kinds(cfg, s), |cfg.detectors|, kindAt);
  }

  /** One span adds at most two app items, one component, one connection, one finding per detector. */
  lemma DeltaSize(cfg: Config, s: Span)
    ensures var d := Delta(cfg, s);
      |d.items| <= 2 && |d.comps| == 1 && |d.conns| == 1 && |d.piis| <= |cfg.detectors|
  {
    FindingsSize(cfg, s);
    SmallMaps(Source(s), ItemRow(Source(s), SourceType(Source(s))),
              Destination(s), ItemRow(Destination(s), HandlerFor(cfg, s).destinationType));
    SmallMaps("", map[], ComponentId(cfg, s), ComponentRow(cfg, s));
    SmallMaps("", map[], ConnectionId(s), ConnectionRow(s, [ComponentId(cfg, s)]));
  }

  function Max(a: nat, b: nat): nat {
    if a < b then b else a
  }

  /** The largest of the four maps. */
  function Largest(t: Tables): nat {
    Max(Max(|t.items|, |t.comps|), Max(|t.piis|, |t.conns|))
  }

  /** At least one of the four maps has n rows. */
  ghost predicate SomeFull(t: Tables, n: int) {
    |t.items| >= n || |t.comps| >= n || |t.piis| >= n || |t.conns| >= n
  }

  /** The largest map has n rows iff some map has: no map hides behind another, none adds to another. */
  lemma LargestReaches(t: Tables, n: int)
    ensures Largest(t) >= n <==> SomeFull(t, n)
    ensures Largest(t) < n <==> |t.items| < n && |t.comps| < n && |t.piis| < n && |t.conns| < n
  {
  }

  /** c holds at most the rows of both t and a. */
  ghost predicate Within(c: Tables, t: Tables, a: Tables) {
    && |c.items| <= |t.items| + |a.items| && |c.comps| <= |t.comps| + |a.comps|
    && |c.piis| <= |t.piis| + |a.piis| && |c.conns| <= |t.conns| + |a.conns|
  }

  lemma ApplySize(t: Tables, a: Tables)
    ensures Within(Apply(t, a), t, a)
  {
    CombineSize(TakeFields, t.items, a.items);
    CombineSize(TakeFields, t.comps, a.comps);
    CombineSize(StayFirst, t.piis, a.piis);
    CombineSize(JoinIds, t.conns, a.conns);
  }

  lemma LargerIn(t: Tables, c: Tables)
    requires |t.items| <= |c.items| && |t.comps| <= |c.comps| && |t.piis| <= |c.piis| && |t.conns| <= |c.conns|
    ensures Largest(t) <= Largest(c)
  {
  }

  lemma ApplyGrows(t: Tables, a: Tables)
    ensures Largest(t) <= Largest(Apply(t, a))
  {
    CombineGrows(TakeFields, t.items, a.items);
    CombineGrows(TakeFields, t.comps, a.comps);
    CombineGrows(StayFirst, t.piis, a.piis);
    CombineGrows(JoinIds, t.conns, a.conns);
    LargerIn(t, Apply(t, a));
  }

  lemma SumBounds(c: Tables, t: Tables, a: Tables)
    requires Within(c, t, a)
    ensures Largest(c) <= Largest(t) + Largest(a)
  {
  }

  /** At most two app items, one component, one connection and d findings. */
  ghost predicate Small(t: Tables, d: nat) {
    |t.items| <= 2 && |t.comps| <= 1 && |t.conns| <= 1 && |t.piis| <= d
  }

  /** What an accumulator holds at most when it is flushed at threshold n, with d detectors. */
  ghost predicate Roomy(t: Tables, n: nat, d: nat) {
    |t.items| <= n + 1 && |t.comps| <= n && |t.conns| <= n && |t.piis| <= n - 1 + d
  }

  lemma RoomyAfter(c: Tables, t: Tables, a: Tables, n: nat, d: nat)
    requires Largest(t) < n && Small(a, d) && Within(c, t, a)
    ensures Roomy(c, n, d)
  {
  }

  lemma StepRoomy(t: Tables, a: Tables, n: nat, d: nat)
    requires Largest(t) < n && Small(a, d)
    ensures Roomy(Apply(t, a), n, d)
  {
    ApplySize(t, a);
    RoomyAfter(Apply(t, a), t, a, n, d);
  }

  lemma SmallIsAtMost(t: Tables, d: nat)
    requires Small(t, d)
    ensures Largest(t) <= Max(2, d)
  {
  }
}
