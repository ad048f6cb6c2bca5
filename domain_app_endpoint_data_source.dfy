/**
 * DomainAppEndpointDataSource: the tenants' routable patterns, keyed case-insensitively,
 * the endpoint list built from them once and memoised, and the change token that tells
 * routing when the list was replaced.
 *
 * A change token is the generation number of the token source that issued it; a
 * cancelled source is a generation in `cancelled`.
 */
module DomainAppEndpointDataSource {
  import opened Wrappers
  import opened Text
  import opened EndpointPointMatcherMetadata
  import opened DomainApps

  const ResourceKey: string := "DomainAppResource"
  const DefaultKey: string := "DomainAppDefault"
  const ResourcePattern: string := "/{lang:SupportedLocals}/resource/{level1Category}/{*slug}"
  const DefaultPattern: string := "/{lang:SupportedLocals}/{controller=Home}/{action=Index}"

  /** A dictionary with OrdinalIgnoreCase keys, as its entries in insertion order. */
  type RouteStates = seq<(string, RouteState)>

  predicate ContainsKey(states: RouteStates, key: string) {
    exists i :: 0 <= i < |states| && EqualsIgnoreCase(states[i].0, key)
  }

  /** No two keys are equal ignoring case. */
  predicate KeysDistinct(states: RouteStates) {
    forall i, j :: 0 <= i < j < |states| ==> !EqualsIgnoreCase(states[i].0, states[j].0)
  }

  /** ConcurrentDictionary.TryAdd: the entry is added only when its key is new. */
  function TryAdd(states: RouteStates, key: string, state: RouteState): (r: RouteStates)
    ensures ContainsKey(states, key) ==> r == states
    ensures !ContainsKey(states, key) ==> r == states + [(key, state)]
    ensures KeysDistinct(states) ==> KeysDistinct(r)
  {
    if ContainsKey(states, key) then states
    else
      var r := states + [(key, state)];
      assert KeysDistinct(states) ==> KeysDistinct(r) by {
        if KeysDistinct(states) {
          forall i, j | 0 <= i < j < |r| ensures !EqualsIgnoreCase(r[i].0, r[j].0) {
            if j == |states| {
              EqualsIgnoreCaseSymmetric(r[i].0, key);
            }
          }
        }
      }
      r
  }

  lemma EqualsIgnoreCaseSymmetric(a: string, b: string)
    ensures EqualsIgnoreCase(a, b) <==> EqualsIgnoreCase(b, a)
  {
  }

  /** The two route states one tenant contributes to the initial load. */
  function LoadApp(states: RouteStates, app: DomainApp): RouteStates {
    var states := TryAdd(states, ResourceKey, RouteState(app.host, ResourcePattern, None));
    TryAdd(states, DefaultKey, RouteState(app.host, DefaultPattern, None))
  }

  /** The route states after the initial load has visited `apps` in order. */
  function LoadStates(states: RouteStates, apps: seq<DomainApp>): (r: RouteStates)
    ensures KeysDistinct(states) ==> KeysDistinct(r)
  {
    if apps == [] then states else LoadApp(LoadStates(states, apps[..|apps| - 1]), apps[|apps| - 1])
  }

  /** The endpoint built for a route state: order 0, named by its pattern, carrying its host. */
  function CreateEndpoint(state: RouteState, order: int, pipeline: Pipeline): (e: Endpoint)
    ensures e.order == order && e.displayName == state.routePattern && e.routePattern == state.routePattern
    ensures e.metadata == MatcherMetadata(Some(state.host)) && e.pipeline == pipeline
  {
    Endpoint(order, state.routePattern, state.routePattern, MatcherMetadata(Some(state.host)), pipeline)
  }

  /** Whether every state can produce its endpoint: a pipeline is set or the state has one cached. */
  predicate CanBuild(states: RouteStates, pipeline: Option<Pipeline>) {
    pipeline.Some? || forall i :: 0 <= i < |states| ==> states[i].1.cachedEndpoint.Some?
  }

  /** The endpoint of a state: its cached one, else one built with the pipeline. */
  function EndpointOf(state: RouteState, pipeline: Option<Pipeline>): Endpoint
    requires state.cachedEndpoint.Some? || pipeline.Some?
  {
    if state.cachedEndpoint.Some? then state.cachedEndpoint.value else CreateEndpoint(state, 0, pipeline.value)
  }

  /** The endpoint list CreateEndpoints publishes, one per state in dictionary order. */
  function Built(states: RouteStates, pipeline: Option<Pipeline>): (r: seq<Endpoint>)
    requires CanBuild(states, pipeline)
    ensures |r| == |states|
  {
    seq(|states|, i requires 0 <= i < |states| => EndpointOf(states[i].1, pipeline))
  }

  /** The states after CreateEndpoints: each one caches the endpoint it produced. */
  function Cached(states: RouteStates, pipeline: Option<Pipeline>): (r: RouteStates)
    requires CanBuild(states, pipeline)
    ensures |r| == |states|
  {
    seq(|states|, i requires 0 <= i < |states| =>
      (states[i].0, states[i].1.(cachedEndpoint := Some(EndpointOf(states[i].1, pipeline)))))
  }

  class DomainAppEndpointDataSource {
    const domainApps: seq<DomainApp>
    var endpoints: Option<seq<Endpoint>>
    var routeStates: RouteStates
    var requestProcessPipeline: Option<Pipeline>
    /** The generation of the current change-token source. */
    var generation: nat
    /** The generations whose source has been cancelled. */
    var cancelled: set<nat>

    /** Exactly the sources before the current one are cancelled; keys are distinct. */
    predicate Valid()
      reads this
    {
      (forall g :: g in cancelled ==> g < generation) && (forall g :: 0 <= g < generation ==> g in cancelled)
      && KeysDistinct(routeStates)
    }

    constructor (domainApps: seq<DomainApp>)
      ensures Valid()
      ensures this.domainApps == domainApps && endpoints.None? && routeStates == []
      ensures requestProcessPipeline.None? && generation == 0 && cancelled == {}
    {
      this.domainApps := domainApps;
      endpoints := None;
      routeStates := [];
      requestProcessPipeline := None;
      generation := 0;
      cancelled := {};
    }

    /** GetChangeToken: the token of the current source, which is not cancelled. */
    function GetChangeToken(): (token: nat)
      requires Valid()
      reads this
      ensures token !in cancelled && forall g :: g in cancelled ==> g < token
    {
      generation
    }

    method SetRequestProcessPipeline(pipeline: Pipeline)
      modifies this`requestProcessPipeline
      ensures requestProcessPipeline == Some(pipeline)
    {
      requestProcessPipeline := Some(pipeline);
    }

    /**
     * InitialLoadAsync: every tenant tries to add a resource and a default route state
     * under two fixed keys; it returns the data source itself.
     */
    method InitialLoadAsync() returns (self: DomainAppEndpointDataSource)
      requires Valid()
      modifies this`routeStates
      ensures Valid() && self == this
      ensures routeStates == LoadStates(old(routeStates), domainApps)
    {
      ghost var start := routeStates;
      for i := 0 to |domainApps|
        invariant routeStates == LoadStates(start, domainApps[..i])
        invariant KeysDistinct(routeStates)
      {
        var item := domainApps[i];
        routeStates := TryAdd(routeStates, ResourceKey, RouteState(item.host, ResourcePattern, None));
        routeStates := TryAdd(routeStates, DefaultKey, RouteState(item.host, DefaultPattern, None));
        assert domainApps[..i + 1][..i] == domainApps[..i];
      }
      assert domainApps[..|domainApps|] == domainApps;
      self := this;
    }

    /**
     * UpdateEndpoints: publishes the list, installs a fresh token source and cancels
     * the one that was current.
     */
    method UpdateEndpoints(newEndpoints: seq<Endpoint>)
      requires Valid()
      modifies this`endpoints, this`generation, this`cancelled
      ensures Valid()
      ensures endpoints == Some(newEndpoints)
      ensures generation == old(generation) + 1 && cancelled == old(cancelled) + {old(generation)}
    {
      var oldSource := generation;
      endpoints := Some(newEndpoints);
      generation := generation + 1;
      cancelled := cancelled + {oldSource};
    }

    /**
     * CreateEndpoints: one endpoint per route state, reusing a cached one and caching
     * a new one otherwise; building without a pipeline fails before anything changes.
     */
    method CreateEndpoints() returns (r: Result<seq<Endpoint>>)
      requires Valid()
      modifies this`routeStates, this`endpoints, this`generation, this`cancelled
      ensures Valid()
      ensures r.Success? <==> CanBuild(old(routeStates), requestProcessPipeline)
      ensures r.Failure? ==> routeStates == old(routeStates) && endpoints == old(endpoints)
                             && generation == old(generation) && cancelled == old(cancelled)
      ensures r.Success? ==>
        r.value == Built(old(routeStates), requestProcessPipeline)
        && routeStates == Cached(old(routeStates), requestProcessPipeline)
        && endpoints == Some(r.value)
        && generation == old(generation) + 1 && cancelled == old(cancelled) + {old(generation)}
    {
      var states := routeStates;
      var built: seq<Endpoint> := [];
      var cached: RouteStates := [];
      for i := 0 to |states|
        invariant |built| == i && |cached| == i
        invariant routeStates == states
        invariant requestProcessPipeline.None? ==> forall j :: 0 <= j < i ==> states[j].1.cachedEndpoint.Some?
        invariant forall j :: 0 <= j < i ==>
          (states[j].1.cachedEndpoint.Some? || requestProcessPipeline.Some?)
          && built[j] == EndpointOf(states[j].1, requestProcessPipeline)
          && cached[j] == (states[j].0, states[j].1.(cachedEndpoint := Some(built[j])))
      {
        var endpoint: Endpoint;
        if states[i].1.cachedEndpoint.Some? {
          endpoint := states[i].1.cachedEndpoint.value;
        } else if requestProcessPipeline.Some? {
          endpoint := CreateEndpoint(states[i].1, 0, requestProcessPipeline.value);
        } else {
          return Failure("The pipeline hasn't been provided yet.");
        }
        built := built + [endpoint];
        cached := cached + [(states[i].0, states[i].1.(cachedEndpoint := Some(endpoint)))];
      }
      assert cached == Cached(states, requestProcessPipeline);
      assert KeysDistinct(cached) by {
        forall i, j | 0 <= i < j < |cached| ensures !EqualsIgnoreCase(cached[i].0, cached[j].0) {
          assert cached[i].0 == states[i].0 && cached[j].0 == states[j].0;
        }
      }
      routeStates := cached;
      UpdateEndpoints(built);
      r := Success(built);
    }

    /**
     * The Endpoints getter: the published list when there is one; otherwise the list
     * CreateEndpoints builds and publishes.
     */
    method GetEndpoints() returns (r: Result<seq<Endpoint>>)
      requires Valid()
      modifies this`routeStates, this`endpoints, this`generation, this`cancelled
      ensures Valid()
      ensures old(endpoints).Some? ==>
        r == Success(old(endpoints).value) && routeStates == old(routeStates) && endpoints == old(endpoints)
        && generation == old(generation) && cancelled == old(cancelled)
      ensures old(endpoints).None? ==>
        (r.Success? <==> CanBuild(old(routeStates), requestProcessPipeline))
        && (r.Success? ==> r.value == Built(old(routeStates), requestProcessPipeline)
                           && routeStates == Cached(old(routeStates), requestProcessPipeline)
                           && generation == old(generation) + 1 && cancelled == old(cancelled) + {old(generation)})
      ensures old(endpoints).None? && r.Failure? ==>
        routeStates == old(routeStates) && endpoints == old(endpoints)
        && generation == old(generation) && cancelled == old(cancelled)
      ensures r.Success? ==> endpoints == Some(r.value)
    {
      if endpoints.None? {
        r := CreateEndpoints();
      } else {
        r := Success(endpoints.value);
      }
    }
  }

  // ---------------------------------------------------------------------------
  // Properties of the store

  /**
   * The fixed keys make the first tenant win: after loading any non-empty tenant list
   * into an empty store there are exactly two states, both with the first tenant's host.
   */
  lemma {:induction false} OnlyFirstTenantIsLoaded(apps: seq<DomainApp>)
    ensures apps == [] ==> LoadStates([], apps) == []
    ensures apps != [] ==> LoadStates([], apps) == FirstTenantStates(apps[0])
  {
    if |apps| > 1 {
      var init := apps[..|apps| - 1];
      assert init[0] == apps[0];
      OnlyFirstTenantIsLoaded(init);
      LoadedKeysPresent(apps[0], apps[|apps| - 1]);
    } else if |apps| == 1 {
      assert apps[..0] == [];
      LoadIntoEmpty(apps[0]);
    }
  }

  function FirstTenantStates(app: DomainApp): RouteStates {
    [(ResourceKey, RouteState(app.host, ResourcePattern, None)), (DefaultKey, RouteState(app.host, DefaultPattern, None))]
  }

  lemma ResourceKeyIsNotDefaultKey()
    ensures !EqualsIgnoreCase(DefaultKey, ResourceKey)
  {
    assert DefaultKey[9] == 'D' && ResourceKey[9] == 'R';
    assert LowerChar('D') == 'd' && LowerChar('R') == 'r';
    assert Lower(DefaultKey)[9] == 'd' && Lower(ResourceKey)[9] == 'r';
  }

  lemma KeyMatchesItself(key: string)
    ensures EqualsIgnoreCase(key, key)
  {
  }

  lemma LoadIntoEmpty(app: DomainApp)
    ensures LoadApp([], app) == FirstTenantStates(app)
  {
    var first := TryAdd([], ResourceKey, RouteState(app.host, ResourcePattern, None));
    assert first == [(ResourceKey, RouteState(app.host, ResourcePattern, None))];
    ResourceKeyIsNotDefaultKey();
    assert !ContainsKey(first, DefaultKey);
  }

  lemma LoadedKeysPresent(first: DomainApp, app: DomainApp)
    ensures LoadApp(FirstTenantStates(first), app) == FirstTenantStates(first)
  {
    var states := FirstTenantStates(first);
    KeyMatchesItself(ResourceKey);
    KeyMatchesItself(DefaultKey);
    assert ContainsKey(states, ResourceKey) by { assert EqualsIgnoreCase(states[0].0, ResourceKey); }
    assert ContainsKey(states, DefaultKey) by { assert EqualsIgnoreCase(states[1].0, DefaultKey); }
  }

  /**
   * Building is memoised through the states: once every state caches its endpoint,
   * building again yields the same list and the same states, with or without a pipeline.
   */
  lemma RebuildReusesCachedEndpoints(states: RouteStates, pipeline: Option<Pipeline>, later: Option<Pipeline>)
    requires CanBuild(states, pipeline)
    ensures CanBuild(Cached(states, pipeline), later)
    ensures Built(Cached(states, pipeline), later) == Built(states, pipeline)
    ensures Cached(Cached(states, pipeline), later) == Cached(states, pipeline)
  {
  }

  /** Every built endpoint serves its state's host and pattern at order 0. */
  lemma BuiltEndpointsCarryTheirStatesHost(states: RouteStates, pipeline: Pipeline, i: int)
    requires 0 <= i < |states| && states[i].1.cachedEndpoint.None?
    ensures Built(states, Some(pipeline))[i].metadata == MatcherMetadata(Some(states[i].1.host))
    ensures Built(states, Some(pipeline))[i].displayName == states[i].1.routePattern
    ensures Built(states, Some(pipeline))[i].order == 0
  {
  }
}
