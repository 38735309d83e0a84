/** The rows that spans leave in the four tables, field by field, from the attributes of the spans. */
module StoredRows {
  import opened Values
  import opened UniqueMerge
  import opened Spans
  import opened Accumulation
  import opened ClosedForm

  // ----- which handler, and what the built-in ones do -----

  /** A registered handler is used for its span type; any other type is treated as NETWORK. */
  lemma HandlerSelected(cfg: Config, s: Span)
    ensures var t, h := Attr(s.attrs, "ebpf.span.type"), HandlerFor(cfg, s);
      && (t in cfg.handlers ==> h == cfg.handlers[t])
      && (t !in cfg.handlers ==>
           && h.destinationType == "SERVICE"
           && forall a ::
                && h.component(a) == Component("ENDPOINT", Attr(a, "ebpf.http.path"))
                && h.piiFields(a) == [Attr(a, "ebpf.http.req_body"), Attr(a, "ebpf.http.resp_body")])
  {
  }

  /** What each built-in handler takes from which attribute. */
  lemma BuiltinHandlers(cfg: Config, s: Span)
    requires cfg.handlers == DefaultHandlers()
    ensures var t, a, h := Attr(s.attrs, "ebpf.span.type"), s.attrs, HandlerFor(cfg, s);
      if t == "QUERY" then
        && h.destinationType == "DATABASE" && h.component(a) == Component("QUERY", Attr(a, "ebpf.db.query"))
        && h.piiFields(a) == [Attr(a, "ebpf.db.query.values")]
      else if t == "MESSAGE" then
        && h.destinationType == "QUEUE" && h.component(a) == Component("QUEUE", Attr(a, "ebpf.queue.topic"))
        && h.piiFields(a) == [Attr(a, "ebpf.queue.payload")]
      else
        && h.destinationType == "SERVICE" && h.component(a) == Component("ENDPOINT", Attr(a, "ebpf.http.path"))
        && h.piiFields(a) == [Attr(a, "ebpf.http.req_body"), Attr(a, "ebpf.http.resp_body")]
  {
  }

  /** An attribute that is not there reads as the empty string. */
  lemma AttributeRead(attrs: Attributes, key: string)
    ensures if key in attrs then Attr(attrs, key) == attrs[key] else Attr(attrs, key) == ""
  {
  }

  // ----- app items -----

  predicate NamedBy(s: Span, n: string) {
    Attr(s.attrs, "ebpf.source") == n || Attr(s.attrs, "ebpf.destination") == n
  }

  ghost predicate LastNamed(spans: seq<Span>, n: string, i: int) {
    0 <= i < |spans| && NamedBy(spans[i], n) && forall j :: i < j < |spans| ==> !NamedBy(spans[j], n)
  }

  lemma NamedIsNaming(spans: seq<Span>, n: string)
    ensures Any(spans, Naming(n)) <==> exists i :: 0 <= i < |spans| && NamedBy(spans[i], n)
    ensures forall i :: LastNamed(spans, n, i) <==> LastWith(spans, Naming(n), i)
  {
    assert forall s :: Naming(n)(s) <==> NamedBy(s, n);
  }

  /**
   * An app item is stored iff some span has it as source or destination.  Its row has the type that
   * the last such span gives it: that of the handler if it is the destination, else INTERNET for the
   * source "internet" and SERVICE for any other.
   */
  lemma StoredItems(cfg: Config, spans: seq<Span>, n: string)
    ensures var t := Accumulated(DeltaOf(cfg), spans).items;
      && (n in t <==> exists i :: 0 <= i < |spans| && NamedBy(spans[i], n))
      && forall i :: LastNamed(spans, n, i) ==>
           n in t && t[n] == map["name" := Str(n), "type" := Str(
             if Attr(spans[i].attrs, "ebpf.destination") == n then HandlerFor(cfg, spans[i]).destinationType
             else if n == "internet" then "INTERNET" else "SERVICE")]
  {
    ItemsClosedForm(cfg, spans, n);
    NamedIsNaming(spans, n);
  }

  // ----- components -----

  /** The span's handler and destination give a component with this id. */
  predicate HasComponent(cfg: Config, s: Span, c: string) {
    var part := HandlerFor(cfg, s).component(s.attrs);
    c == part.kind + ":" + Attr(s.attrs, "ebpf.destination") + ":" + part.value
  }

  ghost predicate LastComponent(cfg: Config, spans: seq<Span>, c: string, i: int) {
    0 <= i < |spans| && HasComponent(cfg, spans[i], c) && forall j :: i < j < |spans| ==> !HasComponent(cfg, spans[j], c)
  }

  lemma HasIsHosting(cfg: Config, spans: seq<Span>, c: string)
    ensures Any(spans, Hosting(cfg, c)) <==> exists i :: 0 <= i < |spans| && HasComponent(cfg, spans[i], c)
    ensures forall i :: LastComponent(cfg, spans, c, i) <==> LastWith(spans, Hosting(cfg, c), i)
  {
    assert forall s :: Hosting(cfg, c)(s) <==> HasComponent(cfg, s, c);
  }

  /**
   * A component is stored iff some span has it.  Its row names the destination of the last such span
   * as its app item, and has the kind and value that the span's handler reads off it.
   */
  lemma StoredComponents(cfg: Config, spans: seq<Span>, c: string)
    ensures var t := Accumulated(DeltaOf(cfg), spans).comps;
      && (c in t <==> exists i :: 0 <= i < |spans| && HasComponent(cfg, spans[i], c))
      && forall i :: LastComponent(cfg, spans, c, i) ==>
           var part := HandlerFor(cfg, spans[i]).component(spans[i].attrs);
           c in t && t[c] == map["id" := Str(c),
                                 "app_item_name" := Str(Attr(spans[i].attrs, "ebpf.destination")),
                                 "component_type" := Str(part.kind),
                                 "value" := Str(part.value)]
  {
    ComponentsClosedForm(cfg, spans, c);
    HasIsHosting(cfg, spans, c);
  }

  // ----- findings -----

  /** Detector d matches a scanned text of the span, whose component then has the finding id. */
  ghost predicate Finds(cfg: Config, s: Span, d: int, c: string, id: string) {
    && 0 <= d < |cfg.detectors| && HasComponent(cfg, s, c) && id == c + ":" + cfg.detectors[d].kind
    && exists text :: text in HandlerFor(cfg, s).piiFields(s.attrs) && cfg.detectors[d].matches(text)
  }

  /** The span has the finding id: some detector found it in a text, for the span's component c. */
  ghost predicate Found(cfg: Config, s: Span, c: string, id: string) {
    exists d :: Finds(cfg, s, d, c, id)
  }

  ghost predicate FirstFound(cfg: Config, spans: seq<Span>, c: string, id: string, i: int) {
    && 0 <= i < |spans| && Found(cfg, spans[i], c, id)
    && forall j, b :: 0 <= j < i ==> !Found(cfg, spans[j], b, id)
  }

  lemma FiresOnText(d: Detector, texts: seq<string>)
    ensures Fires(d, texts) <==> exists text :: text in texts && d.matches(text)
  {
    if text :| text in texts && d.matches(text) {
      var i :| 0 <= i < |texts| && texts[i] == text;
    }
  }

  lemma FoundIsExposing(cfg: Config, s: Span, c: string, id: string)
    ensures Found(cfg, s, c, id) <==> Exposing(cfg, id)(s) && HasComponent(cfg, s, c)
  {
    var texts := HandlerFor(cfg, s).piiFields(s.attrs);
    assert HasComponent(cfg, s, c) <==> c == ComponentId(cfg, s);
    if HasComponent(cfg, s, c) && Exposing(cfg, id)(s) {
      var k :| k in Kinds(cfg, s) && id == PiiId(c, k);
      var d :| 0 <= d < |cfg.detectors| && Fires(cfg.detectors[d], texts) && cfg.detectors[d].kind == k;
      FiresOnText(cfg.detectors[d], texts);
      assert Finds(cfg, s, d, c, id);
    }
    if d :| Finds(cfg, s, d, c, id) {
      FiresOnText(cfg.detectors[d], texts);
      assert cfg.detectors[d].kind in Kinds(cfg, s);
    }
  }

  lemma SomeFound(cfg: Config, spans: seq<Span>, id: string)
    ensures Any(spans, Exposing(cfg, id)) <==> exists i, c :: 0 <= i < |spans| && Found(cfg, spans[i], c, id)
    ensures forall i, c :: FirstFound(cfg, spans, c, id, i) ==> FirstWith(spans, Exposing(cfg, id), i)
  {
    forall s, c
      ensures Found(cfg, s, c, id) <==> Exposing(cfg, id)(s) && HasComponent(cfg, s, c)
    {
      FoundIsExposing(cfg, s, c, id);
    }
    forall s
      ensures HasComponent(cfg, s, ComponentId(cfg, s))
    {
    }
    if i :| 0 <= i < |spans| && Exposing(cfg, id)(spans[i]) {
      assert Found(cfg, spans[i], ComponentId(cfg, spans[i]), id);
    }
    forall i, c | FirstFound(cfg, spans, c, id, i)
      ensures FirstWith(spans, Exposing(cfg, id), i)
    {
      forall j | 0 <= j < i
        ensures !Exposing(cfg, id)(spans[j])
      {
        assert !Found(cfg, spans[j], ComponentId(cfg, spans[j]), id);
      }
    }
  }

  /**
   * A finding is stored iff some detector matches a scanned text of some span.  Its row belongs to the
   * component of the first such span and has the kind of such a detector.
   */
  lemma StoredFindings(cfg: Config, spans: seq<Span>, id: string)
    ensures var t := Accumulated(DeltaOf(cfg), spans).piis;
      && (id in t <==> exists i, c :: 0 <= i < |spans| && Found(cfg, spans[i], c, id))
      && forall i, c, d :: FirstFound(cfg, spans, c, id, i) && Finds(cfg, spans[i], d, c, id) ==>
           id in t && t[id] == map["id" := Str(id), "component_id" := Str(c), "pii_type" := Str(cfg.detectors[d].kind)]
  {
    PiisClosedForm(cfg, spans, id);
    SomeFound(cfg, spans, id);
    forall i, c, d | FirstFound(cfg, spans, c, id, i) && Finds(cfg, spans[i], d, c, id)
      ensures c == ComponentId(cfg, spans[i]) && KindIn(c, id) == cfg.detectors[d].kind
    {
      KindRoundTrip(c, cfg.detectors[d].kind);
    }
  }

  // ----- connections -----

  predicate Links(s: Span, k: string) {
    k == Attr(s.attrs, "ebpf.source") + ":" + Attr(s.attrs, "ebpf.destination")
  }

  ghost predicate FirstLink(spans: seq<Span>, k: string, i: int) {
    0 <= i < |spans| && Links(spans[i], k) && forall j :: 0 <= j < i ==> !Links(spans[j], k)
  }

  /** A span of connection k that visits component c. */
  predicate VisitedBy(cfg: Config, s: Span, k: string, c: string) {
    Links(s, k) && HasComponent(cfg, s, c)
  }

  ghost predicate FirstVisit(cfg: Config, spans: seq<Span>, k: string, c: string, i: int) {
    0 <= i < |spans| && VisitedBy(cfg, spans[i], k, c) && forall j :: 0 <= j < i ==> !VisitedBy(cfg, spans[j], k, c)
  }

  /** The components that the spans of a connection visit, each once, in the order of their first visits. */
  ghost predicate InVisitOrder(cfg: Config, spans: seq<Span>, k: string, ids: seq<string>) {
    && NoDuplicates(ids)
    && (forall c :: c in ids <==> exists i :: 0 <= i < |spans| && VisitedBy(cfg, spans[i], k, c))
    && forall a, b, i, j :: 0 <= a < b < |ids| && FirstVisit(cfg, spans, k, ids[a], i) && FirstVisit(cfg, spans, k, ids[b], j)
         ==> i < j
  }

  lemma LinkIsLinking(spans: seq<Span>, k: string)
    ensures Any(spans, Linking(k)) <==> exists i :: 0 <= i < |spans| && Links(spans[i], k)
    ensures forall i :: FirstLink(spans, k, i) <==> FirstWith(spans, Linking(k), i)
  {
    assert forall s :: Linking(k)(s) <==> Links(s, k);
  }

  lemma VisitNext(cfg: Config, spans: seq<Span>, k: string)
    requires spans != []
    ensures var front, s := Dedup(Visits(cfg, spans[..|spans| - 1], k)), spans[|spans| - 1];
      Dedup(Visits(cfg, spans, k)) ==
        if Links(s, k) && ComponentId(cfg, s) !in front then front + [ComponentId(cfg, s)] else front
  {
    var front, s := Visits(cfg, spans[..|spans| - 1], k), spans[|spans| - 1];
    if Links(s, k) {
      var all := Visits(cfg, spans, k);
      assert all == front + [ComponentId(cfg, s)] && all[..|all| - 1] == front;
    }
  }

  ghost predicate SomeVisit(cfg: Config, spans: seq<Span>, k: string, c: string) {
    exists i :: 0 <= i < |spans| && VisitedBy(cfg, spans[i], k, c)
  }

  lemma SomeVisitSplits(cfg: Config, spans: seq<Span>, k: string, c: string)
    requires spans != []
    ensures SomeVisit(cfg, spans, k, c) <==>
            SomeVisit(cfg, spans[..|spans| - 1], k, c) || VisitedBy(cfg, spans[|spans| - 1], k, c)
  {
    var front := spans[..|spans| - 1];
    if i :| 0 <= i < |spans| && VisitedBy(cfg, spans[i], k, c) {
      assert i < |front| ==> front[i] == spans[i];
    }
    if i :| 0 <= i < |front| && VisitedBy(cfg, front[i], k, c) {
      assert spans[i] == front[i];
    }
  }

  lemma FirstVisitSplits(cfg: Config, spans: seq<Span>, k: string, c: string, i: int)
    requires spans != [] && FirstVisit(cfg, spans, k, c, i)
    ensures if SomeVisit(cfg, spans[..|spans| - 1], k, c) then FirstVisit(cfg, spans[..|spans| - 1], k, c, i)
            else i == |spans| - 1
  {
    var front := spans[..|spans| - 1];
    if j :| 0 <= j < |front| && VisitedBy(cfg, front[j], k, c) {
      assert spans[j] == front[j];
      assert forall q :: 0 <= q < |front| ==> front[q] == spans[q];
    }
  }

  lemma {:induction false} VisitsInOrder(cfg: Config, spans: seq<Span>, k: string)
    ensures InVisitOrder(cfg, spans, k, Dedup(Visits(cfg, spans, k)))
  {
    if spans != [] {
      var front, s := spans[..|spans| - 1], spans[|spans| - 1];
      var before := Dedup(Visits(cfg, front, k));
      VisitsInOrder(cfg, front, k);
      VisitNext(cfg, spans, k);
      NextInOrder(cfg, spans, k, before, Dedup(Visits(cfg, spans, k)));
    }
  }

  lemma NextInOrder(cfg: Config, spans: seq<Span>, k: string, before: seq<string>, ids: seq<string>)
    requires spans != [] && InVisitOrder(cfg, spans[..|spans| - 1], k, before)
    requires var s := spans[|spans| - 1];
      ids == if Links(s, k) && ComponentId(cfg, s) !in before then before + [ComponentId(cfg, s)] else before
    ensures InVisitOrder(cfg, spans, k, ids)
  {
    var front, s := spans[..|spans| - 1], spans[|spans| - 1];
    forall c
      ensures c in ids <==> SomeVisit(cfg, spans, k, c)
    {
      SomeVisitSplits(cfg, spans, k, c);
      assert c in before <==> SomeVisit(cfg, front, k, c);
      assert HasComponent(cfg, s, c) <==> c == ComponentId(cfg, s);
    }
    forall a, b, i, j | 0 <= a < b < |ids| && FirstVisit(cfg, spans, k, ids[a], i) && FirstVisit(cfg, spans, k, ids[b], j)
      ensures i < j
    {
      assert ids[a] == before[a] && ids[a] in before;
      assert b < |before| ==> ids[b] == before[b] && ids[b] in before;
      FirstStaysBefore(cfg, spans, k, before, a, b, ids[b], i, j);
    }
  }

  lemma FirstStaysBefore(cfg: Config, spans: seq<Span>, k: string, before: seq<string>, a: int, b: int, c: string,
      i: int, j: int)
    requires spans != [] && InVisitOrder(cfg, spans[..|spans| - 1], k, before)
    requires 0 <= a < b <= |before| && a < |before| && (if b < |before| then c == before[b] else c !in before)
    requires FirstVisit(cfg, spans, k, before[a], i) && FirstVisit(cfg, spans, k, c, j)
    ensures i < j
  {
    var front := spans[..|spans| - 1];
    FirstVisitSplits(cfg, spans, k, before[a], i);
    FirstVisitSplits(cfg, spans, k, c, j);
    assert before[a] in before && (c in before <==> SomeVisit(cfg, front, k, c));
    assert SomeVisit(cfg, front, k, before[a]);
  }

  /** The ends of span i, and the components visited. */
  ghost predicate LinkRow(cfg: Config, spans: seq<Span>, k: string, i: int, row: Record)
    requires 0 <= i < |spans|
  {
    && InVisitOrder(cfg, spans, k, Ids(row))
    && row == map["id" := Str(k),
                  "source" := Str(Attr(spans[i].attrs, "ebpf.source")),
                  "destination" := Str(Attr(spans[i].attrs, "ebpf.destination")),
                  "component_ids" := StrList(Ids(row))]
  }

  lemma RowOfLink(cfg: Config, spans: seq<Span>, k: string, i: int, ids: seq<string>)
    requires 0 <= i < |spans| && Links(spans[i], k) && InVisitOrder(cfg, spans, k, ids)
    ensures LinkRow(cfg, spans, k, i, ConnectionRow(spans[i], ids))
  {
    assert Ids(ConnectionRow(spans[i], ids)) == ids;
  }

  /**
   * A connection is stored iff some span has its source and destination.  Its row has these ends, and
   * lists the components that its spans visit in the order of their first visits, each once.
   */
  lemma StoredConnections(cfg: Config, spans: seq<Span>, k: string)
    ensures var t := Accumulated(DeltaOf(cfg), spans).conns;
      && (k in t <==> exists i :: 0 <= i < |spans| && Links(spans[i], k))
      && forall i :: FirstLink(spans, k, i) ==>
           k in t && LinkRow(cfg, spans, k, i, t[k])
  {
    ConnectionsClosedForm(cfg, spans, k);
    LinkIsLinking(spans, k);
    VisitsInOrder(cfg, spans, k);
    forall i | FirstLink(spans, k, i)
      ensures LinkRow(cfg, spans, k, i, Accumulated(DeltaOf(cfg), spans).conns[k])
    {
      RowOfLink(cfg, spans, k, i, Dedup(Visits(cfg, spans, k)));
    }
  }
}
