/** Telemetry spans and the handlers that say what each one contributes. */
module Spans {
  import opened Values

  type Attributes = map<string, string>

  datatype Span = Span(attrs: Attributes)

  /** Reading a missing attribute gives the empty string. */
  function Attr(attrs: Attributes, key: string): string {
    if key in attrs then attrs[key] else ""
  }

  datatype Component = Component(kind: string, value: string)

  /** How one span type is processed; handlers are pluggable. */
  datatype Handler = Handler(
    destinationType: string,
    component: Attributes -> Component,
    piiFields: Attributes -> seq<string>)

  /** A detector for one kind of personal data; matching itself is left uninterpreted. */
  datatype Detector = Detector(kind: string, matches: string -> bool)

  datatype Config = Config(handlers: map<string, Handler>, detectors: seq<Detector>)

  function NetworkHandler(): Handler {
    Handler("SERVICE",
            attrs => Component("ENDPOINT", Attr(attrs, "ebpf.http.path")),
            attrs => [Attr(attrs, "ebpf.http.req_body"), Attr(attrs, "ebpf.http.resp_body")])
  }

  function QueryHandler(): Handler {
    Handler("DATABASE",
            attrs => Component("QUERY", Attr(attrs, "ebpf.db.query")),
            attrs => [Attr(attrs, "ebpf.db.query.values")])
  }

  function MessageHandler(): Handler {
    Handler("QUEUE",
            attrs => Component("QUEUE", Attr(attrs, "ebpf.queue.topic")),
            attrs => [Attr(attrs, "ebpf.queue.payload")])
  }

  function DefaultHandlers(): map<string, Handler> {
    map["NETWORK" := NetworkHandler(), "QUERY" := QueryHandler(), "MESSAGE" := MessageHandler()]
  }

  function HandlerFor(cfg: Config, s: Span): Handler {
    var spanType := Attr(s.attrs, "ebpf.span.type");
    if spanType in cfg.handlers then cfg.handlers[spanType] else NetworkHandler()
  }

  function Source(s: Span): string { Attr(s.attrs, "ebpf.source") }

  function Destination(s: Span): string { Attr(s.attrs, "ebpf.destination") }

  function SourceType(source: string): string {
    if source == "internet" then "INTERNET" else "SERVICE"
  }

  function ComponentOf(cfg: Config, s: Span): Component {
    HandlerFor(cfg, s).component(s.attrs)
  }

  function ComponentId(cfg: Config, s: Span): string {
    ComponentOf(cfg, s).kind + ":" + Destination(s) + ":" + ComponentOf(cfg, s).value
  }

  function ConnectionId(s: Span): string {
    Source(s) + ":" + Destination(s)
  }

  function Texts(cfg: Config, s: Span): seq<string> {
    HandlerFor(cfg, s).piiFields(s.attrs)
  }

  /** Detector d fires on one of the texts. */
  ghost predicate Fires(d: Detector, texts: seq<string>) {
    exists i :: 0 <= i < |texts| && d.matches(texts[i])
  }

  /** The kinds of personal data that the detectors find in the texts. */
  ghost function KindsIn(detectors: seq<Detector>, texts: seq<string>): set<string> {
    set i | 0 <= i < |detectors| && Fires(detectors[i], texts) :: detectors[i].kind
  }

  ghost function Kinds(cfg: Config, s: Span): set<string> {
    KindsIn(cfg.detectors, Texts(cfg, s))
  }

  // ----- rows -----

  function ItemRow(name: string, kind: string): Record {
    map["name" := Str(name), "type" := Str(kind)]
  }

  function ComponentRow(cfg: Config, s: Span): Record {
    map["id" := Str(ComponentId(cfg, s)),
        "app_item_name" := Str(Destination(s)),
        "component_type" := Str(ComponentOf(cfg, s).kind),
        "value" := Str(ComponentOf(cfg, s).value)]
  }

  function PiiId(comp: string, kind: string): string {
    comp + ":" + kind
  }

  function PiiRow(comp: string, kind: string): Record {
    map["id" := Str(PiiId(comp, kind)), "component_id" := Str(comp), "pii_type" := Str(kind)]
  }

  function ConnectionRow(s: Span, ids: seq<string>): Record {
    map["id" := Str(ConnectionId(s)),
        "source" := Str(Source(s)),
        "destination" := Str(Destination(s)),
        "component_ids" := StrList(ids)]
  }

  /** The documented role rules, for the built-in handlers. */
  lemma DestinationTypes(cfg: Config, s: Span)
    requires cfg.handlers == DefaultHandlers()
    ensures var t := Attr(s.attrs, "ebpf.span.type");
      HandlerFor(cfg, s).destinationType
        == if t == "QUERY" then "DATABASE" else if t == "MESSAGE" then "QUEUE" else "SERVICE"
  {
  }
}
