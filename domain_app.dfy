/** The tenant descriptor and the per-route record the endpoint table is built from. */
module DomainApps {
  import opened Wrappers
  import opened EndpointPointMatcherMetadata

  /** A tenant: its display name, identifiers and the Host header that selects it. */
  datatype DomainApp = DomainApp(name: string, identifier: string, smallerIdentifier: string, host: string)

  /** A framework RequestDelegate, known only by identity. */
  type Pipeline = nat

  /**
   * A built route endpoint: the fields the data source sets (order, display name,
   * the pattern it was parsed from, the host metadata the matcher reads) and the
   * request delegate it runs. Pattern parsing itself is opaque.
   */
  datatype Endpoint = Endpoint(order: int, displayName: string, routePattern: string,
                               metadata: MatcherMetadata, pipeline: Pipeline)

  /**
   * One routable pattern of one tenant, with the endpoint built from it once
   * (CachedEndpoint). States are owned by the data source's dictionary only, so they
   * are values here and "setting CachedEndpoint" replaces the dictionary entry.
   */
  datatype RouteState = RouteState(host: string, routePattern: string, cachedEndpoint: Option<Endpoint>)
}
