/**
 * The parts of an ASP.NET Core HttpContext the core reads and writes. Request data
 * that the framework or earlier middleware supplies (the static-resource test, the
 * route values chosen by routing) are plain fields.
 */
module Http {
  import opened Wrappers
  import DomainEndpointComparer

  class HttpContext {
    // Request
    var httpMethod: string
    var host: Option<string>            // Request.Host.Value; None when no Host was sent
    var path: string                    // Request.Path.Value
    var queryString: string             // Request.QueryString: "" or "?..."
    var refreshCache: Option<string>    // Request.Query["RefreshCache"], when the key is present
    var acceptLanguage: string          // Request.Headers["Accept-Language"]
    var isStaticResource: bool          // the static-file test the localization step consults
    var routeController: Option<string> // RouteData.Values["controller"]
    var routeAction: Option<string>     // RouteData.Values["action"]
    // Per-request state
    var lang: Option<string>            // Items["Lang"]
    var feature: Option<DomainEndpointComparer.DomainAppFeature>
    // Response
    var status: int
    var location: Option<string>
    var contentType: Option<string>
    var body: string
    /** Whether the middleware handed the request on to the next stage. */
    var nextCalled: bool

    constructor (httpMethod: string, host: Option<string>, path: string, queryString: string,
                 refreshCache: Option<string>, acceptLanguage: string, isStaticResource: bool)
      ensures this.httpMethod == httpMethod && this.host == host && this.path == path
      ensures this.queryString == queryString && this.refreshCache == refreshCache
      ensures this.acceptLanguage == acceptLanguage && this.isStaticResource == isStaticResource
      ensures routeController.None? && routeAction.None? && lang.None? && feature.None?
      ensures status == 200 && location.None? && contentType.None? && body == "" && !nextCalled
    {
      this.httpMethod := httpMethod;
      this.host := host;
      this.path := path;
      this.queryString := queryString;
      this.refreshCache := refreshCache;
      this.acceptLanguage := acceptLanguage;
      this.isStaticResource := isStaticResource;
      routeController := None;
      routeAction := None;
      lang := None;
      feature := None;
      status := 200;
      location := None;
      contentType := None;
      body := "";
      nextCalled := false;
    }
  }
}
