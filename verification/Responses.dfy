/** The API's response types, and the generation-counter cache that holds them. */
module Responses {
  import opened Values

  datatype CatalogComponent = CatalogComponent(kind: string, value: string, piis: seq<string>)

  datatype AppItem = AppItem(name: string, kind: string, components: seq<CatalogComponent>)

  type CatalogResponse = map<string, AppItem>

  datatype ConnectionComponent = ConnectionComponent(kind: string, value: string)

  datatype Connection = Connection(source: string, destination: string, components: seq<ConnectionComponent>)

  // ----- the cache as a value -----

  datatype CacheState<C, R> = CacheState(generation: nat, catalog: Option<C>, connections: Option<R>)

  /** A response is published only if nothing was invalidated since its fetch began and none is there. */
  function PublishCatalog<C, R>(c: CacheState<C, R>, gen: nat, v: C): CacheState<C, R> {
    if c.generation == gen && c.catalog.None? then c.(catalog := Some(v)) else c
  }

  function PublishConnections<C, R>(c: CacheState<C, R>, gen: nat, v: R): CacheState<C, R> {
    if c.generation == gen && c.connections.None? then c.(connections := Some(v)) else c
  }

  function Invalidated<C, R>(c: CacheState<C, R>): CacheState<C, R> {
    CacheState(c.generation + 1, None, None)
  }

  /** What is cached after a call of Process on these spans. */
  function CacheAfter<C, R, S>(c: CacheState<C, R>, spans: seq<S>, ok: bool): CacheState<C, R> {
    if ok && |spans| > 0 then Invalidated(c) else c
  }

  // ----- the cache as an object -----

  class ResponseCache {
    var generation: nat
    var catalog: Option<CatalogResponse>
    var connections: seq<Connection>
    var connectionsCached: bool

    ghost function State(): CacheState<CatalogResponse, seq<Connection>>
      reads this
    {
      CacheState(generation, catalog, if connectionsCached then Some(connections) else None)
    }

    constructor ()
      ensures State() == CacheState(0, None, None)
    {
      generation, catalog, connections, connectionsCached := 0, None, [], false;
    }

    method GetCatalog() returns (cached: Option<CatalogResponse>, gen: nat)
      ensures cached == State().catalog && gen == State().generation
    {
      cached, gen := catalog, generation;
    }

    method SetCatalog(gen: nat, v: CatalogResponse)
      modifies this
      ensures State() == PublishCatalog(old(State()), gen, v)
    {
      if generation == gen && catalog.None? {
        catalog := Some(v);
      }
    }

    method GetConnections() returns (cached: seq<Connection>, gen: nat, ok: bool)
      ensures gen == State().generation && (ok <==> State().connections.Some?)
      ensures ok ==> cached == State().connections.value
    {
      cached, gen, ok := connections, generation, connectionsCached;
    }

    method SetConnections(gen: nat, v: seq<Connection>)
      modifies this
      ensures State() == PublishConnections(old(State()), gen, v)
    {
      if generation == gen && !connectionsCached {
        connections := v;
        connectionsCached := true;
      }
    }

    method Invalidate()
      modifies this
      ensures State() == Invalidated(old(State()))
    {
      generation := generation + 1;
      catalog := None;
      connections := [];
      connectionsCached := false;
    }
  }
}
