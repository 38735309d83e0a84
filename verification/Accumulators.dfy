/** The accumulator: four maps filled span by span in memory. */
module Accumulators {
  import opened Values
  import opened Combining
  import opened UniqueMerge
  import opened Spans
  import opened Accumulation
  import opened Sizes

  // ----- single writes as combinations -----

  lemma StoreItem(t: Rows, k: string, r: Record)
    requires AllRows(IsItem, t) && IsItem(k, r)
    ensures t[k := r] == Combine(TakeFields, t, map[k := r])
    ensures AllRows(IsItem, t[k := r])
  {
    if k in t {
      assert TakeFields(t[k], r) == r;
    }
  }

  lemma StoreComponent(t: Rows, k: string, r: Record)
    requires AllRows(IsComponent, t) && IsComponent(k, r)
    ensures t[k := r] == Combine(TakeFields, t, map[k := r])
  {
    if k in t {
      assert TakeFields(t[k], r) == r;
    }
  }

  lemma ComponentFits(cfg: Config, s: Span)
    ensures IsComponent(ComponentId(cfg, s), ComponentRow(cfg, s))
  {
  }

  lemma StoreBothItems(t: Rows, j: string, p: Record, k: string, r: Record)
    requires AllRows(IsItem, t) && IsItem(j, p) && IsItem(k, r)
    ensures t[j := p][k := r] == Combine(TakeFields, t, map[j := p][k := r])
  {
    StoreItem(t, j, p);
    StoreItem(t[j := p], k, r);
    StoreItem(map[j := p], k, r);
    RulesAssociative();
    CombineAssociative(TakeFields, t, map[j := p], map[k := r]);
  }

  lemma PiiRowsUnite(comp: string, kinds: set<string>, more: set<string>)
    ensures Combine(StayFirst, PiiRows(comp, kinds), PiiRows(comp, more)) == PiiRows(comp, kinds + more)
  {
  }

  /** Storing further findings after the ones already stored. */
  lemma StoreFindings(t: Rows, comp: string, kinds: set<string>, more: set<string>)
    ensures Combine(StayFirst, Combine(StayFirst, t, PiiRows(comp, kinds)), PiiRows(comp, more))
         == Combine(StayFirst, t, PiiRows(comp, kinds + more))
  {
    RulesAssociative();
    CombineAssociative(StayFirst, t, PiiRows(comp, kinds), PiiRows(comp, more));
    PiiRowsUnite(comp, kinds, more);
  }

  lemma OneFinding(t: Rows, comp: string, kind: string)
    ensures Combine(StayFirst, t, PiiRows(comp, {kind}))
         == if PiiId(comp, kind) in t then t else t[PiiId(comp, kind) := PiiRow(comp, kind)]
  {
    KindRoundTrip(comp, kind);
    assert PiiRows(comp, {kind}) == map[PiiId(comp, kind) := PiiRow(comp, kind)];
  }

  lemma OneMoreIn(s: seq<string>, i: nat)
    requires i < |s|
    ensures forall k :: k in s[..i + 1] <==> k in s[..i] || k == s[i]
  {
    PrefixNext(s, i);
  }

  lemma NoFinding(t: Rows, comp: string)
    ensures Combine(StayFirst, t, PiiRows(comp, {})) == t
  {
    assert PiiRows(comp, {}) == map[];
    CombineIdentity(StayFirst, t);
  }

  lemma KindsOfNext(detectors: seq<Detector>, texts: seq<string>, i: nat)
    requires i < |texts|
    ensures KindsIn(detectors, texts[..i + 1]) == KindsIn(detectors, texts[..i]) + KindsIn(detectors, [texts[i]])
  {
    forall d | 0 <= d < |detectors|
      ensures Fires(detectors[d], texts[..i + 1]) <==> Fires(detectors[d], texts[..i]) || Fires(detectors[d], [texts[i]])
    {
      FiresNext(detectors[d], texts, i);
    }
  }

  lemma FiresNext(d: Detector, texts: seq<string>, i: nat)
    requires i < |texts|
    ensures Fires(d, texts[..i + 1]) <==> Fires(d, texts[..i]) || Fires(d, [texts[i]])
  {
    var more := texts[..i + 1];
    if j :| 0 <= j < |more| && d.matches(more[j]) {
      assert j < i ==> texts[..i][j] == more[j];
      assert j == i ==> [texts[i]][0] == more[j];
    }
    if j :| 0 <= j < i && d.matches(texts[..i][j]) {
      assert more[j] == texts[..i][j];
    }
    if d.matches([texts[i]][0]) {
      assert more[i] == texts[i];
    }
  }

  /** The kinds found in one text, in detector order. */
  method DetectPIIs(cfg: Config, text: string) returns (found: seq<string>)
    ensures (set k | k in found) == KindsIn(cfg.detectors, [text])
  {
    found := [];
    for i := 0 to |cfg.detectors|
      invariant (set k | k in found) == KindsIn(cfg.detectors[..i], [text])
    {
      NextDetector(cfg.detectors, i, [text]);
      assert Fires(cfg.detectors[i], [text]) <==> cfg.detectors[i].matches(text) by {
        assert [text][0] == text;
      }
      if cfg.detectors[i].matches(text) {
        found := found + [cfg.detectors[i].kind];
      }
    }
    WholePrefix(cfg.detectors);
  }

  lemma NextDetector(detectors: seq<Detector>, i: nat, texts: seq<string>)
    requires i < |detectors|
    ensures KindsIn(detectors[..i + 1], texts)
         == KindsIn(detectors[..i], texts) + if Fires(detectors[i], texts) then {detectors[i].kind} else {}
  {
    var more, less := detectors[..i + 1], detectors[..i];
    forall k
      ensures k in KindsIn(more, texts)
          <==> k in KindsIn(less, texts) || (Fires(detectors[i], texts) && k == detectors[i].kind)
    {
      if j :| 0 <= j < |more| && Fires(more[j], texts) && more[j].kind == k {
        assert j < i ==> less[j] == more[j];
      }
      if j :| 0 <= j < |less| && Fires(less[j], texts) && less[j].kind == k {
        assert more[j] == less[j];
      }
      if Fires(detectors[i], texts) && k == detectors[i].kind {
        assert more[i] == detectors[i];
      }
    }
  }

  class Accumulator {
    var items: Rows
    var comps: Rows
    var piis: Rows
    var conns: Rows

    ghost function State(): Tables
      reads this
    {
      Tables(items, comps, piis, conns)
    }

    constructor ()
      ensures State() == Empty()
    {
      items, comps, piis, conns := map[], map[], map[], map[];
    }

    method Reset()
      modifies this
      ensures State() == Empty()
    {
      items, comps, piis, conns := map[], map[], map[], map[];
    }

    method ExceedsThreshold(threshold: int) returns (r: bool)
      ensures r <==> Largest(State()) >= threshold
    {
      r := |items| >= threshold || |comps| >= threshold || |piis| >= threshold || |conns| >= threshold;
    }

    method AddItems(source: string, sourceType: string, destination: string, destinationType: string)
      requires AllRows(IsItem, items)
      modifies this`items
      ensures items == Combine(TakeFields, old(items),
        map[source := ItemRow(source, sourceType)][destination := ItemRow(destination, destinationType)])
    {
      items := items[source := ItemRow(source, sourceType)];
      items := items[destination := ItemRow(destination, destinationType)];
      StoreBothItems(old(items), source, ItemRow(source, sourceType), destination, ItemRow(destination, destinationType));
    }

    method AddPIIs(cfg: Config, comp: string, texts: seq<string>)
      modifies this`piis
      ensures piis == Combine(StayFirst, old(piis), PiiRows(comp, KindsIn(cfg.detectors, texts)))
    {
      NoFinding(piis, comp);
      assert KindsIn(cfg.detectors, texts[..0]) == {};
      for i := 0 to |texts|
        invariant piis == Combine(StayFirst, old(piis), PiiRows(comp, KindsIn(cfg.detectors, texts[..i])))
      {
        var found := DetectPIIs(cfg, texts[i]);
        AddKinds(comp, found);
        StoreFindings(old(piis), comp, KindsIn(cfg.detectors, texts[..i]), KindsIn(cfg.detectors, [texts[i]]));
        KindsOfNext(cfg.detectors, texts, i);
      }
      WholePrefix(texts);
    }

    /** A finding that is stored already stays as it is. */
    method AddFinding(comp: string, kind: string)
      modifies this`piis
      ensures piis == Combine(StayFirst, old(piis), PiiRows(comp, {kind}))
    {
      var id := PiiId(comp, kind);
      OneFinding(piis, comp, kind);
      if id !in piis {
        piis := piis[id := PiiRow(comp, kind)];
      }
    }

    method AddKinds(comp: string, found: seq<string>)
      modifies this`piis
      ensures piis == Combine(StayFirst, old(piis), PiiRows(comp, set k | k in found))
    {
      NoFinding(piis, comp);
      ghost var stored: set<string> := {};
      for i := 0 to |found|
        invariant stored == set k | k in found[..i]
        invariant piis == Combine(StayFirst, old(piis), PiiRows(comp, stored))
      {
        AddFinding(comp, found[i]);
        StoreFindings(old(piis), comp, stored, {found[i]});
        stored := stored + {found[i]};
        OneMoreIn(found, i);
      }
      WholePrefix(found);
    }

    method AddConnection(s: Span, comp: string)
      modifies this`conns
      ensures conns == Combine(JoinIds, old(conns), map[ConnectionId(s) := ConnectionRow(s, [comp])])
    {
      var id := ConnectionId(s);
      if id in conns {
        var existing := conns[id];
        var merged := MergeUniqueStrings(Lookup(existing, "component_ids"), StrList([comp]));
        conns := conns[id := existing["component_ids" := merged]];
        assert Ids(ConnectionRow(s, [comp])) == [comp];
      } else {
        conns := conns[id := ConnectionRow(s, [comp])];
      }
    }

    method AddComponent(comp: string, row: Record)
      requires AllRows(IsComponent, comps) && IsComponent(comp, row)
      modifies this`comps
      ensures comps == Combine(TakeFields, old(comps), map[comp := row])
    {
      StoreComponent(comps, comp, row);
      comps := comps[comp := row];
    }

    method Accumulate(cfg: Config, s: Span)
      requires WellFormed(State())
      modifies this
      ensures State() == Apply(old(State()), Delta(cfg, s))
    {
      var source, destination := Source(s), Destination(s);
      var handler := HandlerFor(cfg, s);
      AddItems(source, SourceType(source), destination, handler.destinationType);
      var comp := ComponentId(cfg, s);
      ComponentFits(cfg, s);
      AddComponent(comp, ComponentRow(cfg, s));
      AddPIIs(cfg, comp, handler.piiFields(s.attrs));
      AddConnection(s, comp);
    }
  }
}
