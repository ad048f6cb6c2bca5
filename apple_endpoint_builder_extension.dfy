/**
 * AppleEndpointBuilderExtension: registers the tenant data source once, resolves the
 * tenant of a request by its host, and runs the final request stage that dispatches to
 * a controller action, renders its view under the tenant's own view folders, writes
 * the page cache and then the response.
 *
 * Controller activation, action invocation and the Razor view lookup and rendering
 * are represented by their results, passed in as parameters.
 */
module AppleEndpointBuilderExtension {
  import opened Wrappers
  import opened Text
  import opened DomainApps
  import DomainEndpointComparer
  import opened PageCacheService
  import opened Http
  import PageCachesMiddleware
  import DataSource = DomainAppEndpointDataSource

  // ---------------------------------------------------------------------------
  // Tenant lookup

  /** `FirstOrDefault(x => string.Equals(x.Host, host, OrdinalIgnoreCase))`; no host matches none. */
  function FindTenant(domainApps: seq<DomainApp>, host: Option<string>): (r: Option<DomainApp>)
    ensures r.Some? <==> host.Some? && exists i :: 0 <= i < |domainApps| && EqualsIgnoreCase(domainApps[i].host, host.value)
    ensures r.Some? ==> exists i :: 0 <= i < |domainApps| && domainApps[i] == r.value
                                    && EqualsIgnoreCase(domainApps[i].host, host.value)
                                    && forall j :: 0 <= j < i ==> !EqualsIgnoreCase(domainApps[j].host, host.value)
  {
    if host.None? || domainApps == [] then None
    else if EqualsIgnoreCase(domainApps[0].host, host.value) then Some(domainApps[0])
    else
      var r := FindTenant(domainApps[1..], host);
      assert forall i :: 1 <= i < |domainApps| ==> domainApps[i] == domainApps[1..][i - 1];
      r
  }

  /** The tenant stage and the page-cache middleware agree on which hosts are tenants. */
  lemma TenantLookupAgreesWithCacheMiddleware(domainApps: seq<DomainApp>, host: Option<string>)
    ensures FindTenant(domainApps, host).Some? <==> PageCachesMiddleware.IsDomainAppHost(domainApps, host)
  {
  }

  /**
   * The first pipeline stage: fails when the request has no DomainAppFeature or no
   * tenant has its host; otherwise records the tenant in the feature and runs the next
   * stage.
   */
  method ResolveTenant(ctx: HttpContext, domainApps: seq<DomainApp>) returns (r: Result<()>)
    modifies ctx`feature, ctx`nextCalled
    ensures old(ctx.feature).None? ==> r == Failure("DomainAppFeature is missing.")
    ensures old(ctx.feature).Some? && FindTenant(domainApps, ctx.host).None? ==>
      r == Failure("DomainApp " + ctx.host.GetOr("") + " does not exist.")
    ensures r.Failure? ==> ctx.feature == old(ctx.feature) && ctx.nextCalled == old(ctx.nextCalled)
    ensures r.Success? <==> old(ctx.feature).Some? && FindTenant(domainApps, ctx.host).Some?
    ensures r.Success? ==>
      ctx.feature == Some(old(ctx.feature).value.(domainApp := FindTenant(domainApps, ctx.host))) && ctx.nextCalled
  {
    if ctx.feature.None? {
      return Failure("DomainAppFeature is missing.");
    }
    var domainAppFeature := ctx.feature.value;
    var host := ctx.host;
    var domainApp := FindTenant(domainApps, host);
    if domainApp.None? {
      return Failure("DomainApp " + host.GetOr("") + " does not exist.");
    }
    domainAppFeature := domainAppFeature.(domainApp := domainApp);
    ctx.feature := Some(domainAppFeature);
    ctx.nextCalled := true;
    r := Success(());
  }

  // ---------------------------------------------------------------------------
  // Controller discovery

  /** A controller type as reflection shows it: its name and the names of its methods. */
  datatype TypeInfo = TypeInfo(name: string, methods: seq<string>)

  /** The first type with the given name, ignoring case. */
  function FirstNamed(types: seq<TypeInfo>, name: string): (r: Option<TypeInfo>)
    ensures r.Some? <==> exists i :: 0 <= i < |types| && EqualsIgnoreCase(types[i].name, name)
    ensures r.Some? ==> exists i :: 0 <= i < |types| && types[i] == r.value && EqualsIgnoreCase(types[i].name, name)
                                    && forall j :: 0 <= j < i ==> !EqualsIgnoreCase(types[j].name, name)
  {
    if types == [] then None
    else if EqualsIgnoreCase(types[0].name, name) then Some(types[0])
    else
      var r := FirstNamed(types[1..], name);
      assert forall i :: 1 <= i < |types| ==> types[i] == types[1..][i - 1];
      r
  }

  /** All types of all assembly parts, in part order. */
  function Flatten(parts: seq<seq<TypeInfo>>): seq<TypeInfo> {
    if parts == [] then [] else Flatten(parts[..|parts| - 1]) + parts[|parts| - 1]
  }

  lemma {:induction false} FirstNamedAppend(a: seq<TypeInfo>, b: seq<TypeInfo>, name: string)
    ensures FirstNamed(a + b, name) == if FirstNamed(a, name).Some? then FirstNamed(a, name) else FirstNamed(b, name)
    decreases |a|
  {
    if a != [] {
      assert (a + b)[1..] == a[1..] + b;
      FirstNamedAppend(a[1..], b, name);
    } else {
      assert a + b == b;
    }
  }

  /**
   * FindControllerType: scans the assembly parts in order and returns the first type
   * named "<controllerName>Controller" (ignoring case) of the first part that has one,
   * which is the first such type among all parts taken together.
   */
  method FindControllerType(parts: seq<seq<TypeInfo>>, controllerName: string) returns (r: Option<TypeInfo>)
    ensures r == FirstNamed(Flatten(parts), controllerName + "Controller")
  {
    var target := controllerName + "Controller";
    for i := 0 to |parts|
      invariant FirstNamed(Flatten(parts[..i]), target).None?
    {
      var controllerType := FirstNamed(parts[i], target);
      ScanStep(parts, i, target);
      if controllerType.Some? {
        ScanStopsAtFirstHit(parts, i, target);
        return controllerType;
      }
    }
    assert parts[..|parts|] == parts;
    r := None;
  }

  /** One more part scanned: a search of the longer prefix finds what the prefix or the new part finds. */
  lemma ScanStep(parts: seq<seq<TypeInfo>>, i: nat, name: string)
    requires i < |parts|
    ensures FirstNamed(Flatten(parts[..i + 1]), name)
      == if FirstNamed(Flatten(parts[..i]), name).Some? then FirstNamed(Flatten(parts[..i]), name)
         else FirstNamed(parts[i], name)
  {
    assert parts[..i + 1][..i] == parts[..i];
    FirstNamedAppend(Flatten(parts[..i]), parts[i], name);
  }

  /** A hit in a prefix of the parts is the hit of all parts. */
  lemma ScanStopsAtFirstHit(parts: seq<seq<TypeInfo>>, i: nat, name: string)
    requires i < |parts| && FirstNamed(Flatten(parts[..i + 1]), name).Some?
    ensures FirstNamed(Flatten(parts), name) == FirstNamed(Flatten(parts[..i + 1]), name)
  {
    assert parts[..i + 1] + parts[i + 1..] == parts;
    FlattenAppend(parts[..i + 1], parts[i + 1..]);
    FirstNamedAppend(Flatten(parts[..i + 1]), Flatten(parts[i + 1..]), name);
  }

  lemma {:induction false} FlattenAppend(a: seq<seq<TypeInfo>>, b: seq<seq<TypeInfo>>)
    ensures Flatten(a + b) == Flatten(a) + Flatten(b)
    decreases |b|
  {
    if b == [] {
      assert a + b == a;
    } else {
      var c := b[..|b| - 1];
      assert (a + b)[..|a + b| - 1] == a + c;
      assert (a + b)[|a + b| - 1] == b[|b| - 1];
      FlattenAppend(a, c);
    }
  }

  /** The action method: the first method whose name equals the action name, ignoring case. */
  function FindMethod(methods: seq<string>, actionName: string): (r: Option<string>)
    ensures r.Some? <==> exists i :: 0 <= i < |methods| && EqualsIgnoreCase(methods[i], actionName)
    ensures r.Some? ==> exists i :: 0 <= i < |methods| && methods[i] == r.value && EqualsIgnoreCase(methods[i], actionName)
                                    && forall j :: 0 <= j < i ==> !EqualsIgnoreCase(methods[j], actionName)
  {
    if methods == [] then None
    else if EqualsIgnoreCase(methods[0], actionName) then Some(methods[0])
    else
      var r := FindMethod(methods[1..], actionName);
      assert forall i :: 1 <= i < |methods| ==> methods[i] == methods[1..][i - 1];
      r
  }

  // ---------------------------------------------------------------------------
  // Per-tenant view locations

  /** Where a tenant's views are looked up: `{0}` is the view, `{1}` the controller. */
  function ViewLocationFormats(smallerIdentifier: string): (r: seq<string>)
    ensures |r| == 2 && forall i :: 0 <= i < |r| ==> StartsWith(r[i], "/SiteViews/" + smallerIdentifier + "/")
    ensures forall i :: 0 <= i < |r| ==> StartsWith(r[i], "/SiteViews/" + smallerIdentifier + "/Views/")
  {
    var viewBase := "/SiteViews/" + smallerIdentifier;
    var r := [viewBase + "/Views/{1}/{0}.cshtml", viewBase + "/Views/Shared/{0}.cshtml"];
    assert r[0][..|viewBase| + 1] == viewBase + "/";
    assert r[1][..|viewBase| + 1] == viewBase + "/";
    assert r[0][..|viewBase| + 7] == viewBase + "/Views/";
    assert r[1][..|viewBase| + 7] == viewBase + "/Views/";
    r
  }

  /** Area views likewise, with `{2}` the area. */
  function AreaViewLocationFormats(smallerIdentifier: string): (r: seq<string>)
    ensures |r| == 2 && forall i :: 0 <= i < |r| ==> StartsWith(r[i], "/SiteViews/" + smallerIdentifier + "/")
    ensures forall i :: 0 <= i < |r| ==> StartsWith(r[i], "/SiteViews/" + smallerIdentifier + "/Areas/{2}/Views/")
  {
    var viewBase := "/SiteViews/" + smallerIdentifier;
    var r := [viewBase + "/Areas/{2}/Views/{1}/{0}.cshtml", viewBase + "/Areas/{2}/Views/Shared/{0}.cshtml"];
    assert r[0][..|viewBase| + 1] == viewBase + "/";
    assert r[1][..|viewBase| + 1] == viewBase + "/";
    assert r[0][..|viewBase| + 17] == viewBase + "/Areas/{2}/Views/";
    assert r[1][..|viewBase| + 17] == viewBase + "/Areas/{2}/Views/";
    r
  }

  /**
   * Tenants are isolated: two tenants whose short identifiers differ (and contain no
   * '/') share no view location.
   */
  lemma TenantViewsAreDisjoint(a: string, b: string, i: int, j: int)
    requires a != b && HasNo(a, '/') && HasNo(b, '/')
    requires 0 <= i < 2 && 0 <= j < 2
    ensures ViewLocationFormats(a)[i] != ViewLocationFormats(b)[j]
    ensures AreaViewLocationFormats(a)[i] != AreaViewLocationFormats(b)[j]
  {
    var x := ViewLocationFormats(a)[i];
    var y := ViewLocationFormats(b)[j];
    if x == y {
      DistinctFolders(a, b, x[|"/SiteViews/" + a + "/"|..], y[|"/SiteViews/" + b + "/"|..]);
      assert false;
    }
    var u := AreaViewLocationFormats(a)[i];
    var v := AreaViewLocationFormats(b)[j];
    if u == v {
      DistinctFolders(a, b, u[|"/SiteViews/" + a + "/"|..], v[|"/SiteViews/" + b + "/"|..]);
      assert false;
    }
  }

  /** A folder name without '/' is recovered from "/SiteViews/<name>/<rest>". */
  lemma DistinctFolders(a: string, b: string, x: string, y: string)
    requires a != b && HasNo(a, '/') && HasNo(b, '/')
    ensures "/SiteViews/" + a + "/" + x != "/SiteViews/" + b + "/" + y
  {
    var p := "/SiteViews/";
    var s := p + a + "/" + x;
    var t := p + b + "/" + y;
    if |a| < |b| {
      assert s[|p| + |a|] == '/' && t[|p| + |a|] == b[|a|];
    } else if |b| < |a| {
      assert t[|p| + |b|] == '/' && s[|p| + |b|] == a[|b|];
    } else {
      var i :| 0 <= i < |a| && a[i] != b[i];
      assert s[|p| + i] == a[i] && t[|p| + i] == b[i];
    }
  }

  // ---------------------------------------------------------------------------
  // The final request stage

  /** How the final stage ends. */
  datatype FinalOutcome =
    | NotSpecified        // 404 "Controller or Action not specified"
    | ControllerNotFound  // 404 "Controller not found"
    | NoResponse          // no such action method, or it did not return a view; response untouched
    | ViewNotFound        // 404 "View not found"
    | Rendered(content: string) // cache file written, then text/html content
    | Failed(error: string)     // an exception leaves the stage

  /** string.IsNullOrWhiteSpace. */
  predicate IsNullOrWhiteSpace(s: Option<string>) {
    s.None? || forall i :: 0 <= i < |s.value| ==> IsWhiteSpace(s.value[i])
  }

  /** Both the controller and the action route values are given and not blank. */
  predicate Specified(controller: Option<string>, action: Option<string>) {
    !IsNullOrWhiteSpace(controller) && !IsNullOrWhiteSpace(action)
  }

  /**
   * The request names a controller type among the parts that has the action method,
   * and the action returned a view result.
   */
  predicate ActionReturnsView(controller: Option<string>, action: Option<string>, parts: seq<seq<TypeInfo>>,
                              isViewResult: bool) {
    Specified(controller, action)
    && FirstNamed(Flatten(parts), controller.value + "Controller").Some?
    && FindMethod(FirstNamed(Flatten(parts), controller.value + "Controller").value.methods, action.value).Some?
    && isViewResult
  }

  /** The request's feature carries its tenant. */
  predicate HasTenant(feature: Option<DomainEndpointComparer.DomainAppFeature>) {
    feature.Some? && feature.value.domainApp.Some?
  }

  /**
   * The decision of FinalRequestProcess, given the controller parts, whether the action
   * returned a view result, whether the tenant's view engine found the view, the
   * rendered text and whether the cache write throws.
   */
  function FinalDecision(controller: Option<string>, action: Option<string>, parts: seq<seq<TypeInfo>>,
                         isViewResult: bool, feature: Option<DomainEndpointComparer.DomainAppFeature>,
                         viewFound: bool, rendered: string, writeFails: bool): (r: FinalOutcome)
    ensures r.NotSpecified? <==> !Specified(controller, action)
    ensures r.ControllerNotFound? <==>
      Specified(controller, action) && FirstNamed(Flatten(parts), controller.value + "Controller").None?
    ensures r.NoResponse? <==>
      Specified(controller, action) && FirstNamed(Flatten(parts), controller.value + "Controller").Some?
      && !ActionReturnsView(controller, action, parts, isViewResult)
    ensures r.Failed? <==>
      ActionReturnsView(controller, action, parts, isViewResult) && (!HasTenant(feature) || (viewFound && writeFails))
    ensures r.ViewNotFound? <==>
      ActionReturnsView(controller, action, parts, isViewResult) && HasTenant(feature) && !viewFound
    ensures r.Rendered? <==>
      ActionReturnsView(controller, action, parts, isViewResult) && HasTenant(feature) && viewFound && !writeFails
    ensures r.Rendered? ==> r.content == rendered
  {
    if IsNullOrWhiteSpace(controller) || IsNullOrWhiteSpace(action) then NotSpecified
    else
      var controllerType := FirstNamed(Flatten(parts), controller.value + "Controller");
      if controllerType.None? then ControllerNotFound
      else if FindMethod(controllerType.value.methods, action.value).None? || !isViewResult then NoResponse
      else if feature.None? || feature.value.domainApp.None? then Failed("DomainAppFeature is missing.")
      else if !viewFound then ViewNotFound
      else if writeFails then Failed("The cache file could not be written.")
      else Rendered(rendered)
  }

  /** The 404 outcomes and their messages. */
  function NotFoundMessage(outcome: FinalOutcome): (m: Option<string>)
    ensures m.Some? <==> outcome.NotSpecified? || outcome.ControllerNotFound? || outcome.ViewNotFound?
  {
    match outcome
    case NotSpecified => Some("Controller or Action not specified")
    case ControllerNotFound => Some("Controller not found")
    case ViewNotFound => Some("View not found")
    case _ => None
  }

  /**
   * What the final stage leaves behind for `outcome`: a 404 outcome sets the status and
   * appends its message; a rendered page is stored under the request path's cache file
   * and appended to the body as text/html; any other outcome touches neither the
   * response nor the page cache.
   */
  twostate predicate FinalApplied(ctx: HttpContext, fs: FileStore, contentRoot: string, outcome: FinalOutcome)
    reads ctx, fs
  {
    if NotFoundMessage(outcome).Some? then
      ctx.status == 404 && ctx.body == old(ctx.body) + NotFoundMessage(outcome).value
      && ctx.contentType == old(ctx.contentType) && fs.files == old(fs.files)
    else if outcome.Rendered? then
      fs.files == old(fs.files)[CacheFilename(contentRoot, ctx.path) := outcome.content]
      && ctx.contentType == Some("text/html") && ctx.body == old(ctx.body) + outcome.content
      && ctx.status == old(ctx.status)
    else
      ctx.status == old(ctx.status) && ctx.body == old(ctx.body) && ctx.contentType == old(ctx.contentType)
      && fs.files == old(fs.files)
  }

  /**
   * FinalRequestProcess: the 404 outcomes set the status and write their message; a
   * rendered page is written to the page cache of the request path before it is
   * written to the response as text/html.
   */
  method FinalRequestProcess(ctx: HttpContext, fs: FileStore, contentRoot: string, parts: seq<seq<TypeInfo>>,
                             isViewResult: bool, viewFound: bool, rendered: string, writeFails: bool)
    returns (outcome: FinalOutcome)
    modifies ctx`status, ctx`contentType, ctx`body, fs
    ensures outcome == FinalDecision(ctx.routeController, ctx.routeAction, parts, isViewResult, ctx.feature,
                                     viewFound, rendered, writeFails)
    ensures FinalApplied(ctx, fs, contentRoot, outcome)
  {
    var controllerName := ctx.routeController;
    var actionName := ctx.routeAction;
    if IsNullOrWhiteSpace(controllerName) || IsNullOrWhiteSpace(actionName) {
      ctx.status := 404;
      ctx.body := ctx.body + "Controller or Action not specified";
      return NotSpecified;
    }
    var controllerType := FindControllerType(parts, controllerName.value);
    if controllerType.None? {
      ctx.status := 404;
      ctx.body := ctx.body + "Controller not found";
      return ControllerNotFound;
    }
    var methodInfo := FindMethod(controllerType.value.methods, actionName.value);
    if methodInfo.None? || !isViewResult {
      return NoResponse;
    }
    if ctx.feature.None? || ctx.feature.value.domainApp.None? {
      return Failed("DomainAppFeature is missing.");
    }
    if !viewFound {
      ctx.status := 404;
      ctx.body := ctx.body + "View not found";
      return ViewNotFound;
    }
    var written := WriteCacheFile(fs, contentRoot, ctx.path, rendered, writeFails);
    if !written {
      return Failed("The cache file could not be written.");
    }
    ctx.contentType := Some("text/html");
    ctx.body := ctx.body + rendered;
    outcome := Rendered(rendered);
  }

  /**
   * The request pipeline the data source's endpoints run: the tenant stage, then the
   * final stage.
   */
  method RequestPipeline(ctx: HttpContext, domainApps: seq<DomainApp>, fs: FileStore, contentRoot: string,
                         parts: seq<seq<TypeInfo>>, isViewResult: bool, viewFound: bool, rendered: string,
                         writeFails: bool)
    returns (r: Result<FinalOutcome>)
    modifies ctx`feature, ctx`nextCalled, ctx`status, ctx`contentType, ctx`body, fs
    ensures old(ctx.feature).None? || FindTenant(domainApps, ctx.host).None? ==>
      r.Failure? && ctx.feature == old(ctx.feature) && ctx.nextCalled == old(ctx.nextCalled)
      && ctx.status == old(ctx.status) && ctx.contentType == old(ctx.contentType) && ctx.body == old(ctx.body)
      && fs.files == old(fs.files)
    ensures old(ctx.feature).None? ==> r == Failure("DomainAppFeature is missing.")
    ensures old(ctx.feature).Some? && FindTenant(domainApps, ctx.host).None? ==>
      r == Failure("DomainApp " + ctx.host.GetOr("") + " does not exist.")
    ensures old(ctx.feature).Some? && FindTenant(domainApps, ctx.host).Some? ==>
      ctx.feature == Some(old(ctx.feature).value.(domainApp := FindTenant(domainApps, ctx.host))) && ctx.nextCalled
      && var d := FinalDecision(ctx.routeController, ctx.routeAction, parts, isViewResult, ctx.feature,
                                viewFound, rendered, writeFails);
         && (d.Failed? ==> writeFails && r == Failure(d.error)) && (!d.Failed? ==> r == Success(d))
         && FinalApplied(ctx, fs, contentRoot, d)
  {
    var resolved := ResolveTenant(ctx, domainApps);
    if resolved.Failure? {
      return Failure(resolved.error);
    }
    var outcome := FinalRequestProcess(ctx, fs, contentRoot, parts, isViewResult, viewFound, rendered, writeFails);
    if outcome.Failed? {
      // Only the cache write can still fail once the tenant is recorded.
      return Failure(outcome.error);
    }
    r := Success(outcome);
  }

  // ---------------------------------------------------------------------------
  // Registration

  /** The route builder's data sources; None stands for a data source of another kind. */
  class EndpointRouteBuilder {
    var dataSources: seq<Option<DataSource.DomainAppEndpointDataSource>>

    constructor (dataSources: seq<Option<DataSource.DomainAppEndpointDataSource>>)
      ensures this.dataSources == dataSources
    {
      this.dataSources := dataSources;
    }
  }

  predicate HasDomainAppSource(dataSources: seq<Option<DataSource.DomainAppEndpointDataSource>>) {
    exists i :: 0 <= i < |dataSources| && dataSources[i].Some?
  }

  /**
   * MapAppleAppEndpoints: the first call hands the service's data source the request
   * pipeline, registers it and loads it; once one is registered, later calls change
   * nothing.
   */
  method MapAppleAppEndpoints(endpoints: EndpointRouteBuilder, service: DataSource.DomainAppEndpointDataSource,
                              pipeline: Pipeline)
    requires service.Valid()
    modifies endpoints, service`requestProcessPipeline, service`routeStates
    ensures service.Valid()
    ensures old(HasDomainAppSource(endpoints.dataSources)) ==>
      endpoints.dataSources == old(endpoints.dataSources)
      && service.requestProcessPipeline == old(service.requestProcessPipeline)
      && service.routeStates == old(service.routeStates)
    ensures !old(HasDomainAppSource(endpoints.dataSources)) ==>
      endpoints.dataSources == old(endpoints.dataSources) + [Some(service)]
      && service.requestProcessPipeline == Some(pipeline)
      && service.routeStates == DataSource.LoadStates(old(service.routeStates), service.domainApps)
    ensures HasDomainAppSource(endpoints.dataSources)
  {
    var existing := FirstDomainAppSource(endpoints.dataSources);
    if existing.None? {
      service.SetRequestProcessPipeline(pipeline);
      endpoints.dataSources := endpoints.dataSources + [Some(service)];
      var _ := service.InitialLoadAsync();
      assert endpoints.dataSources[|endpoints.dataSources| - 1].Some?;
    }
  }

  /** `DataSources.OfType<DomainAppEndpointDataSource>().FirstOrDefault()`. */
  function FirstDomainAppSource(dataSources: seq<Option<DataSource.DomainAppEndpointDataSource>>)
    : (r: Option<DataSource.DomainAppEndpointDataSource>)
    ensures r.Some? <==> HasDomainAppSource(dataSources)
  {
    if dataSources == [] then None
    else if dataSources[0].Some? then dataSources[0]
    else
      var r := FirstDomainAppSource(dataSources[1..]);
      assert forall i :: 1 <= i < |dataSources| ==> dataSources[i] == dataSources[1..][i - 1];
      r
  }
}
