/**
 * PageCachesMiddleware: serves a tenant's GET page requests from the page cache,
 * redirects page URLs to their canonical ".html" form, and otherwise rewrites the path
 * and tags the request so that the renderer regenerates the cache file.
 */
module PageCachesMiddleware {
  import opened Wrappers
  import opened Text
  import opened DomainApps
  import DomainEndpointComparer
  import opened PageCacheService
  import opened Http

  /** Whether any tenant's host equals the request host, ignoring case (no host matches none). */
  predicate IsDomainAppHost(domainApps: seq<DomainApp>, host: Option<string>) {
    host.Some? && exists i :: 0 <= i < |domainApps| && EqualsIgnoreCase(domainApps[i].host, host.value)
  }

  /**
   * CanProcess: the last page segment names an MVC route (absent, or without any '.')
   * or an ".html" page (ordinal suffix) whose name does not start with '.'.
   */
  function CanProcess(lastSegment: Option<string>): (r: bool)
    ensures r <==> lastSegment.None? || HasNo(lastSegment.value, '.')
                   || (lastSegment.value[0] != '.' && EndsWith(lastSegment.value, ".html"))
  {
    if lastSegment.None? || lastSegment.value == "" then true
    else if IndexOf(lastSegment.value, '.') == -1 then true
    else if IndexOf(lastSegment.value, '.') > 0 && EndsWith(lastSegment.value, ".html") then true
    else false
  }

  /**
   * RemoveHtmlExtension: the path the renderer should see for an ".html" page (ordinal
   * suffix): the locale, the leading segments and the page name without ".html", or
   * nothing for "index.html", joined under "/" and lower-cased. None when the last
   * segment is not an ".html" page; the path is then left alone.
   */
  function RemoveHtmlExtension(langSegment: string, pathSegments: seq<string>): (newPath: Option<string>)
    ensures newPath.Some? <==> pathSegments != [] && EndsWith(pathSegments[|pathSegments| - 1], ".html")
    ensures newPath.Some? ==> newPath.value != "" && newPath.value[0] == '/' && IsLowerCase(newPath.value)
  {
    if pathSegments != [] && EndsWith(pathSegments[|pathSegments| - 1], ".html") then
      var lastSegment := pathSegments[|pathSegments| - 1];
      var urlSegments := [langSegment] + pathSegments[..|pathSegments| - 1];
      var urlSegments := if lastSegment == "index.html" then urlSegments
                         else urlSegments + [lastSegment[..|lastSegment| - 5]];
      LowerAllIsLowerCase(urlSegments);
      JoinIsLowerCase(LowerAll(urlSegments), "/");
      Some("/" + Join(LowerAll(urlSegments), "/"))
    else None
  }

  /**
   * SetDomainAppFeature: the request's feature (a fresh one when there is none) with
   * its generation mode set; the tenant it carries is kept.
   */
  function WithMode(feature: Option<DomainEndpointComparer.DomainAppFeature>, mode: DomainEndpointComparer.GenerateMode)
    : (r: DomainEndpointComparer.DomainAppFeature)
    ensures r.generateMode == mode
    ensures feature.Some? ==> r.domainApp == feature.value.domainApp
    ensures feature.None? ==> r.domainApp.None?
  {
    feature.GetOr(DomainEndpointComparer.NewFeature()).(generateMode := mode)
  }

  /** bool.TryParse succeeding with true: "true" in any case, once white space and '\0' are trimmed from both ends. */
  predicate ParsesAsTrue(value: string) {
    EqualsIgnoreCase(TrimWhiteSpaceAndNull(value), "true")
  }

  /** "TRUE" and "true\0" force a refresh; "truth" does not. */
  lemma RefreshFlagValues()
    ensures ParsesAsTrue("TRUE") && ParsesAsTrue("true\0")
    ensures !ParsesAsTrue("truth")
  {
    TrimAndNullOfTrimmed("TRUE");
    assert Lower("TRUE") == "true";
    TrimAndNullOfTrimmed("true");
    assert "true\0"[..4] == "true";
    assert TrimWhiteSpaceAndNull("true\0") == "true";
    assert Lower("true") == "true";
    TrimAndNullOfTrimmed("truth");
    assert |Lower("truth")| == 5;
  }

  /** What InvokeAsync does with a request. */
  datatype CacheOutcome =
    | PassThrough                         // next runs, nothing changed
    | Regenerate(newPath: Option<string>, mode: DomainEndpointComparer.GenerateMode)
                                          // path rewritten when Some, mode set, next runs
    | CanonicalRedirect(location: string) // 301
    | ServeFromCache(content: string)     // text/html from the cache file, next not run
    | NotFound                            // 404 (AutoGenerateCache off)
    | CacheReadFailed                     // the read threw; logged, next runs

  /** The page segments: the path's non-empty segments, without the locale when one is set. */
  function PageSegments(langSegment: string, path: string): (segments: seq<string>)
    ensures forall i :: 0 <= i < |segments| ==> segments[i] != "" && HasNo(segments[i], '/')
  {
    var fullPathSegments := SplitNonEmpty(path, '/');
    if langSegment != "" && fullPathSegments != [] then fullPathSegments[1..] else fullPathSegments
  }

  function LastOrDefault(segments: seq<string>): Option<string> {
    if segments == [] then None else Some(segments[|segments| - 1])
  }

  /**
   * What an outcome does to the context: PassThrough and CacheReadFailed only run next;
   * Regenerate rewrites the path when a new one is given, sets the generation mode and
   * runs next; CanonicalRedirect sets status 301 and the Location header;
   * ServeFromCache writes the page as text/html and does not run next. Nothing else of
   * the context changes.
   */
  twostate predicate Applied(ctx: HttpContext, outcome: CacheOutcome)
    reads ctx
  {
    match outcome
    case PassThrough | CacheReadFailed =>
      ctx.nextCalled && ctx.path == old(ctx.path) && ctx.feature == old(ctx.feature)
      && ctx.status == old(ctx.status) && ctx.location == old(ctx.location)
      && ctx.contentType == old(ctx.contentType) && ctx.body == old(ctx.body)
    case NotFound =>
      ctx.status == 404
      && ctx.nextCalled == old(ctx.nextCalled) && ctx.path == old(ctx.path) && ctx.feature == old(ctx.feature)
      && ctx.location == old(ctx.location) && ctx.contentType == old(ctx.contentType) && ctx.body == old(ctx.body)
    case Regenerate(newPath, mode) =>
      ctx.nextCalled && ctx.path == newPath.GetOr(old(ctx.path))
      && ctx.feature == Some(WithMode(old(ctx.feature), mode))
      && ctx.status == old(ctx.status) && ctx.location == old(ctx.location)
      && ctx.contentType == old(ctx.contentType) && ctx.body == old(ctx.body)
    case CanonicalRedirect(location) =>
      ctx.status == 301 && ctx.location == Some(location)
      && ctx.nextCalled == old(ctx.nextCalled) && ctx.path == old(ctx.path) && ctx.feature == old(ctx.feature)
      && ctx.contentType == old(ctx.contentType) && ctx.body == old(ctx.body)
    case ServeFromCache(content) =>
      ctx.contentType == Some("text/html") && ctx.body == old(ctx.body) + content
      && ctx.nextCalled == old(ctx.nextCalled) && ctx.path == old(ctx.path) && ctx.feature == old(ctx.feature)
      && ctx.status == old(ctx.status) && ctx.location == old(ctx.location)
  }

  /** The decision ladder of InvokeAsync. */
  function Decide(domainApps: seq<DomainApp>, contentRoot: string, autoGenerateCache: bool,
                  httpMethod: string, host: Option<string>, lang: Option<string>, path: string,
                  refreshCache: Option<string>, files: map<string, string>, readFails: bool): (r: CacheOutcome)
    ensures r.ServeFromCache? ==>
      CacheFilename(contentRoot, path) in files && files[CacheFilename(contentRoot, path)] == r.content
    ensures r.NotFound? ==> !autoGenerateCache
    ensures r != PassThrough ==> EqualsIgnoreCase(httpMethod, "GET") && IsDomainAppHost(domainApps, host)
    ensures EqualsIgnoreCase(httpMethod, "GET") && IsDomainAppHost(domainApps, host) ==>
      r == PageDecision(contentRoot, autoGenerateCache, lang, path, refreshCache, files, readFails)
  {
    if !EqualsIgnoreCase(httpMethod, "GET") then PassThrough
    else if !IsDomainAppHost(domainApps, host) then PassThrough
    else PageDecision(contentRoot, autoGenerateCache, lang, path, refreshCache, files, readFails)
  }

  /** The rungs of the ladder after the method and host checks. */
  function PageDecision(contentRoot: string, autoGenerateCache: bool, lang: Option<string>, path: string,
                        refreshCache: Option<string>, files: map<string, string>, readFails: bool): (r: CacheOutcome)
    ensures r.ServeFromCache? ==>
      CacheFilename(contentRoot, path) in files && files[CacheFilename(contentRoot, path)] == r.content
    ensures r.NotFound? ==> !autoGenerateCache
    ensures r.PassThrough? <==> !CanProcess(LastOrDefault(PageSegments(lang.GetOr(""), path)))
    ensures !r.PassThrough? && refreshCache.Some? && ParsesAsTrue(refreshCache.value) ==>
      r == Regenerate(RemoveHtmlExtension(lang.GetOr(""), PageSegments(lang.GetOr(""), path)),
                      DomainEndpointComparer.ForceGenerating)
    ensures !r.PassThrough? && !(refreshCache.Some? && ParsesAsTrue(refreshCache.value)) ==>
      r == Canonicalise(contentRoot, autoGenerateCache, lang.GetOr(""), PageSegments(lang.GetOr(""), path),
                        path, files, readFails)
  {
    var langSegment := lang.GetOr("");
    var pathSegments := PageSegments(langSegment, path);
    var lastSegment := LastOrDefault(pathSegments);
    if !CanProcess(lastSegment) then PassThrough
    else if refreshCache.Some? && ParsesAsTrue(refreshCache.value) then
      Regenerate(RemoveHtmlExtension(langSegment, pathSegments), DomainEndpointComparer.ForceGenerating)
    else Canonicalise(contentRoot, autoGenerateCache, langSegment, pathSegments, path, files, readFails)
  }

  /** The last rungs of the ladder: the canonical redirect, else the cache look-up. */
  function Canonicalise(contentRoot: string, autoGenerateCache: bool, langSegment: string, pathSegments: seq<string>,
                        path: string, files: map<string, string>, readFails: bool): (r: CacheOutcome)
    ensures r.CanonicalRedirect? <==> CanonicalLocation(langSegment, pathSegments).Some?
    ensures r.CanonicalRedirect? ==> r.location == CanonicalLocation(langSegment, pathSegments).value
    ensures !r.CanonicalRedirect? ==> r == LookUp(contentRoot, autoGenerateCache, langSegment, pathSegments, path, files, readFails)
  {
    var location := CanonicalLocation(langSegment, pathSegments);
    if location.Some? then CanonicalRedirect(location.value)
    else LookUp(contentRoot, autoGenerateCache, langSegment, pathSegments, path, files, readFails)
  }

  /**
   * The canonical-form redirect of a page request: "/<lang>/index.html" when only the
   * locale is given, the lower-cased page plus ".html" when the last segment lacks it
   * (ignoring case), and none when the request is already in ".html" form.
   */
  function CanonicalLocation(langSegment: string, pathSegments: seq<string>): (location: Option<string>)
    ensures location.None? <==> pathSegments != [] && EndsWithIgnoreCase(pathSegments[|pathSegments| - 1], ".html")
    ensures location.Some? ==> StartsWith(location.value, "/" + langSegment + "/")
    ensures pathSegments == [] ==> location == Some("/" + langSegment + "/index.html")
    ensures pathSegments != [] && location.Some? ==>
      location.value == "/" + langSegment + "/" + Join(LowerAll(pathSegments), "/") + ".html"
  {
    if pathSegments == [] then Some("/" + langSegment + "/index.html")
    else if !EndsWithIgnoreCase(pathSegments[|pathSegments| - 1], ".html") then
      Some("/" + langSegment + "/" + Join(LowerAll(pathSegments), "/") + ".html")
    else None
  }

  /** The cache rungs of the ladder: the cache file of the request path, read or regenerated. */
  function LookUp(contentRoot: string, autoGenerateCache: bool, langSegment: string, pathSegments: seq<string>,
                  path: string, files: map<string, string>, readFails: bool): (r: CacheOutcome)
    ensures r.ServeFromCache? ==>
      CacheFilename(contentRoot, path) in files && files[CacheFilename(contentRoot, path)] == r.content
    ensures r.NotFound? ==> !autoGenerateCache
    ensures r.ServeFromCache? <==> CacheFilename(contentRoot, path) in files && !readFails
    ensures r.CacheReadFailed? <==> CacheFilename(contentRoot, path) in files && readFails
    ensures r.Regenerate? <==> CacheFilename(contentRoot, path) !in files && autoGenerateCache
    ensures r.NotFound? <==> CacheFilename(contentRoot, path) !in files && !autoGenerateCache
    ensures r.Regenerate? ==>
      r == Regenerate(RemoveHtmlExtension(langSegment, pathSegments), DomainEndpointComparer.AutoGenerating)
  {
    var fileName := CacheFilename(contentRoot, path);
    if fileName in files then
      if readFails then CacheReadFailed else ServeFromCache(files[fileName])
    else if autoGenerateCache then
      Regenerate(RemoveHtmlExtension(langSegment, pathSegments), DomainEndpointComparer.AutoGenerating)
    else NotFound
  }

  class PageCachesMiddleware {
    const domainApps: seq<DomainApp>
    const contentRoot: string
    var autoGenerateCache: bool

    /** The constructor turns AutoGenerateCache on, whatever its initial value. */
    predicate Valid()
      reads this
    {
      autoGenerateCache
    }

    constructor (domainApps: seq<DomainApp>, contentRoot: string)
      ensures this.domainApps == domainApps && this.contentRoot == contentRoot
      ensures Valid()
    {
      this.domainApps := domainApps;
      this.contentRoot := contentRoot;
      autoGenerateCache := false;
      new;
      autoGenerateCache := true;
    }

    method SetDomainAppFeature(ctx: HttpContext, mode: DomainEndpointComparer.GenerateMode)
      modifies ctx`feature
      ensures ctx.feature == Some(WithMode(old(ctx.feature), mode))
    {
      var feature := ctx.feature.GetOr(DomainEndpointComparer.NewFeature());
      feature := feature.(generateMode := mode);
      ctx.feature := Some(feature);
    }

    /** InvokeAsync, against a file store and the oracle `readFails` for the cache read. */
    method InvokeAsync(ctx: HttpContext, fs: FileStore, readFails: bool) returns (outcome: CacheOutcome)
      requires Valid()
      modifies ctx`path, ctx`status, ctx`location, ctx`contentType, ctx`body, ctx`feature, ctx`nextCalled
      ensures outcome == Decide(domainApps, contentRoot, autoGenerateCache, ctx.httpMethod, ctx.host, ctx.lang,
                                old(ctx.path), ctx.refreshCache, fs.files, readFails)
      ensures outcome != NotFound
      ensures Applied(ctx, outcome)
    {
      if !EqualsIgnoreCase(ctx.httpMethod, "GET") || !IsDomainAppHost(domainApps, ctx.host) {
        ctx.nextCalled := true;
        return PassThrough;
      }
      outcome := ProcessPage(ctx, fs, readFails);
    }

    /** InvokeAsync for a GET to a tenant host: the page rungs of the ladder. */
    method ProcessPage(ctx: HttpContext, fs: FileStore, readFails: bool) returns (outcome: CacheOutcome)
      requires Valid()
      modifies ctx`path, ctx`status, ctx`location, ctx`contentType, ctx`body, ctx`feature, ctx`nextCalled
      ensures outcome == PageDecision(contentRoot, autoGenerateCache, ctx.lang, old(ctx.path), ctx.refreshCache,
                                      fs.files, readFails)
      ensures outcome != NotFound
      ensures Applied(ctx, outcome)
    {
      var langSegment := ctx.lang.GetOr("");
      var pathSegments := PageSegments(langSegment, ctx.path);
      var lastSegment := LastOrDefault(pathSegments);
      ghost var decision := PageDecision(contentRoot, autoGenerateCache, ctx.lang, ctx.path, ctx.refreshCache, fs.files, readFails);
      if !CanProcess(lastSegment) {
        assert decision == PassThrough;
        outcome := PassThroughPage(ctx);
        return;
      }
      if ctx.refreshCache.Some? && ParsesAsTrue(ctx.refreshCache.value) {
        var newPath := RemoveHtmlExtension(langSegment, pathSegments);
        assert decision == Regenerate(newPath, DomainEndpointComparer.ForceGenerating);
        outcome := RewriteForGeneration(ctx, newPath, DomainEndpointComparer.ForceGenerating);
        return;
      }
      assert decision == Canonicalise(contentRoot, autoGenerateCache, langSegment, pathSegments, ctx.path, fs.files, readFails);
      outcome := RedirectOrLookUp(ctx, fs, readFails, langSegment, pathSegments);
    }

    /** A request this middleware does not handle: only next is run. */
    method PassThroughPage(ctx: HttpContext) returns (outcome: CacheOutcome)
      modifies ctx`nextCalled
      ensures outcome == PassThrough
      ensures Applied(ctx, outcome)
    {
      ctx.nextCalled := true;
      return PassThrough;
    }

    /** The canonical-form redirect when the page is not in ".html" form, else the cache look-up. */
    method RedirectOrLookUp(ctx: HttpContext, fs: FileStore, readFails: bool, langSegment: string, pathSegments: seq<string>)
      returns (outcome: CacheOutcome)
      requires Valid()
      modifies ctx`path, ctx`status, ctx`location, ctx`contentType, ctx`body, ctx`feature, ctx`nextCalled
      ensures outcome == Canonicalise(contentRoot, autoGenerateCache, langSegment, pathSegments, old(ctx.path), fs.files, readFails)
      ensures outcome != NotFound && outcome != PassThrough
      ensures Applied(ctx, outcome)
    {
      if |pathSegments| == 0 {
        outcome := Redirect(ctx, "/" + langSegment + "/index.html");
        return;
      } else if !EndsWithIgnoreCase(pathSegments[|pathSegments| - 1], ".html") {
        outcome := Redirect(ctx, "/" + langSegment + "/" + Join(LowerAll(pathSegments), "/") + ".html");
        return;
      }
      outcome := LookUpCache(ctx, fs, readFails, langSegment, pathSegments);
    }

    /** A permanent redirect: status 301 and the Location header. */
    method Redirect(ctx: HttpContext, location: string) returns (outcome: CacheOutcome)
      modifies ctx`status, ctx`location
      ensures outcome == CanonicalRedirect(location)
      ensures ctx.status == 301 && ctx.location == Some(location)
    {
      ctx.location := Some(location);
      ctx.status := 301;
      return CanonicalRedirect(location);
    }

    /** The path rewritten when a new one is given, the generation mode set, and next run. */
    method RewriteForGeneration(ctx: HttpContext, newPath: Option<string>, mode: DomainEndpointComparer.GenerateMode)
      returns (outcome: CacheOutcome)
      modifies ctx`path, ctx`feature, ctx`nextCalled
      ensures outcome == Regenerate(newPath, mode)
      ensures ctx.nextCalled && ctx.path == newPath.GetOr(old(ctx.path))
      ensures ctx.feature == Some(WithMode(old(ctx.feature), mode))
    {
      if newPath.Some? {
        ctx.path := newPath.value;
      }
      SetDomainAppFeature(ctx, mode);
      ctx.nextCalled := true;
      return Regenerate(newPath, mode);
    }

    /** The last rungs of InvokeAsync: serve the cache file, or have the page regenerated. */
    method LookUpCache(ctx: HttpContext, fs: FileStore, readFails: bool, langSegment: string, pathSegments: seq<string>)
      returns (outcome: CacheOutcome)
      modifies ctx`path, ctx`status, ctx`contentType, ctx`body, ctx`feature, ctx`nextCalled
      ensures outcome == LookUp(contentRoot, autoGenerateCache, langSegment, pathSegments, old(ctx.path), fs.files, readFails)
      ensures Applied(ctx, outcome)
      ensures !outcome.PassThrough? && !outcome.CanonicalRedirect?
    {
      var fileName := CacheFilename(contentRoot, ctx.path);
      if fileName in fs.files {
        if readFails {
          ctx.nextCalled := true;
          return CacheReadFailed;
        }
        var content := fs.files[fileName];
        ctx.contentType := Some("text/html");
        ctx.body := ctx.body + content;
        return ServeFromCache(content);
      } else if autoGenerateCache {
        var newPath := RemoveHtmlExtension(langSegment, pathSegments);
        outcome := RewriteForGeneration(ctx, newPath, DomainEndpointComparer.AutoGenerating);
      } else {
        ctx.status := 404;
        return NotFound;
      }
    }
  }

  // ---------------------------------------------------------------------------
  // Properties of the ladder

  /** A non-GET request, or one for a host no tenant has, passes through. */
  lemma ForeignRequestsPassThrough(domainApps: seq<DomainApp>, contentRoot: string, autoGenerateCache: bool,
                                   httpMethod: string, host: Option<string>, lang: Option<string>, path: string,
                                   refreshCache: Option<string>, files: map<string, string>, readFails: bool)
    requires !EqualsIgnoreCase(httpMethod, "GET") || !IsDomainAppHost(domainApps, host)
    ensures Decide(domainApps, contentRoot, autoGenerateCache, httpMethod, host, lang, path,
                   refreshCache, files, readFails) == PassThrough
  {
  }

  /**
   * RefreshCache=true forces regeneration before any redirect or cache read: the
   * outcome does not depend on the cache or the AutoGenerateCache switch.
   */
  lemma RefreshForcesRegeneration(domainApps: seq<DomainApp>, contentRoot: string, autoGenerateCache: bool,
                                  httpMethod: string, host: Option<string>, lang: Option<string>, path: string,
                                  refreshCache: Option<string>, files: map<string, string>, readFails: bool,
                                  otherFiles: map<string, string>, otherReadFails: bool, otherAuto: bool)
    requires refreshCache.Some? && ParsesAsTrue(refreshCache.value)
    requires Decide(domainApps, contentRoot, autoGenerateCache, httpMethod, host, lang, path,
                    refreshCache, files, readFails) != PassThrough
    ensures Decide(domainApps, contentRoot, autoGenerateCache, httpMethod, host, lang, path, refreshCache, files, readFails)
      == Regenerate(RemoveHtmlExtension(lang.GetOr(""), PageSegments(lang.GetOr(""), path)),
                    DomainEndpointComparer.ForceGenerating)
      == Decide(domainApps, contentRoot, otherAuto, httpMethod, host, lang, path, refreshCache, otherFiles, otherReadFails)
  {
  }

  /** Canonical redirects are decided before, and without, any look at the cache. */
  lemma RedirectsPrecedeCacheLookup(domainApps: seq<DomainApp>, contentRoot: string, autoGenerateCache: bool,
                                    httpMethod: string, host: Option<string>, lang: Option<string>, path: string,
                                    refreshCache: Option<string>, files: map<string, string>, readFails: bool,
                                    otherFiles: map<string, string>, otherReadFails: bool, otherAuto: bool)
    requires Decide(domainApps, contentRoot, autoGenerateCache, httpMethod, host, lang, path,
                    refreshCache, files, readFails).CanonicalRedirect?
    ensures Decide(domainApps, contentRoot, otherAuto, httpMethod, host, lang, path, refreshCache, otherFiles, otherReadFails)
      == Decide(domainApps, contentRoot, autoGenerateCache, httpMethod, host, lang, path, refreshCache, files, readFails)
  {
    PageRedirectsPrecedeCacheLookup(contentRoot, autoGenerateCache, lang, path, refreshCache, files, readFails,
                                    otherFiles, otherReadFails, otherAuto);
  }

  lemma PageRedirectsPrecedeCacheLookup(contentRoot: string, autoGenerateCache: bool, lang: Option<string>, path: string,
                                        refreshCache: Option<string>, files: map<string, string>, readFails: bool,
                                        otherFiles: map<string, string>, otherReadFails: bool, otherAuto: bool)
    requires PageDecision(contentRoot, autoGenerateCache, lang, path, refreshCache, files, readFails).CanonicalRedirect?
    ensures PageDecision(contentRoot, otherAuto, lang, path, refreshCache, otherFiles, otherReadFails)
      == PageDecision(contentRoot, autoGenerateCache, lang, path, refreshCache, files, readFails)
  {
    var r := LookUp(contentRoot, autoGenerateCache, lang.GetOr(""), PageSegments(lang.GetOr(""), path), path, files, readFails);
    assert !r.CanonicalRedirect?;
  }

  /**
   * A GET to a tenant host for a page already in ".html" form, without RefreshCache,
   * is answered from the cache file of the request path: served when it exists and
   * reads, handed on when the read fails, regenerated in AutoGenerating mode when it is
   * missing, and a 404 only when AutoGenerateCache is off.
   */
  lemma HtmlPagesAreLookedUp(domainApps: seq<DomainApp>, contentRoot: string, autoGenerateCache: bool,
                             httpMethod: string, host: Option<string>, lang: Option<string>, path: string,
                             refreshCache: Option<string>, files: map<string, string>, readFails: bool)
    requires EqualsIgnoreCase(httpMethod, "GET") && IsDomainAppHost(domainApps, host)
    requires !(refreshCache.Some? && ParsesAsTrue(refreshCache.value))
    requires CanProcess(LastOrDefault(PageSegments(lang.GetOr(""), path)))
    requires PageSegments(lang.GetOr(""), path) != []
    requires EndsWithIgnoreCase(PageSegments(lang.GetOr(""), path)[|PageSegments(lang.GetOr(""), path)| - 1], ".html")
    ensures var r := Decide(domainApps, contentRoot, autoGenerateCache, httpMethod, host, lang, path,
                            refreshCache, files, readFails);
            var file := CacheFilename(contentRoot, path);
      && (file in files && !readFails ==> r == ServeFromCache(files[file]))
      && (file in files && readFails ==> r == CacheReadFailed)
      && (file !in files && autoGenerateCache ==>
            r == Regenerate(RemoveHtmlExtension(lang.GetOr(""), PageSegments(lang.GetOr(""), path)),
                            DomainEndpointComparer.AutoGenerating))
      && (file !in files && !autoGenerateCache ==> r == NotFound)
  {
  }

  /**
   * The canonical redirect is final: requesting its location (the redirect drops the
   * query string, so without RefreshCache) is neither redirected again nor handed on
   * unprocessed, whatever the cache holds.
   */
  lemma CanonicalRedirectIsFinal(contentRoot: string, autoGenerateCache: bool, lang: Option<string>, path: string,
                                 refreshCache: Option<string>, files: map<string, string>, readFails: bool,
                                 otherFiles: map<string, string>, otherReadFails: bool)
    requires HasNo(lang.GetOr(""), '/')
    requires PageDecision(contentRoot, autoGenerateCache, lang, path, refreshCache, files, readFails).CanonicalRedirect?
    ensures var location := PageDecision(contentRoot, autoGenerateCache, lang, path, refreshCache, files, readFails).location;
            var r := PageDecision(contentRoot, autoGenerateCache, lang, location, None, otherFiles, otherReadFails);
      !r.PassThrough? && !r.CanonicalRedirect?
  {
    var langSegment := lang.GetOr("");
    var segs := PageSegments(langSegment, path);
    var location := CanonicalLocation(langSegment, segs).value;
    var pages := CanonicalPages(segs);
    CanonicalLocationOfPages(langSegment, segs);
    PageSegmentsOfLocation(langSegment, pages);
    assert PageSegments(langSegment, location) == pages;
    CanonicalPageIsHtml(segs);
  }

  /** The segments of a canonical location: the lower-cased segments, ".html" on the last, or "index.html". */
  function CanonicalPages(segs: seq<string>): (pages: seq<string>)
    requires forall i :: 0 <= i < |segs| ==> segs[i] != "" && HasNo(segs[i], '/')
    ensures pages != []
    ensures forall i :: 0 <= i < |pages| ==> pages[i] != "" && HasNo(pages[i], '/')
  {
    if segs == [] then ["index.html"]
    else
      var lowered := LowerAll(segs);
      forall i | 0 <= i < |segs| ensures HasNo(lowered[i], '/') {
        LowerKeepsPunctuation(segs[i]);
      }
      lowered[..|segs| - 1] + [lowered[|segs| - 1] + ".html"]
  }

  lemma CanonicalLocationOfPages(langSegment: string, segs: seq<string>)
    requires forall i :: 0 <= i < |segs| ==> segs[i] != "" && HasNo(segs[i], '/')
    requires CanonicalLocation(langSegment, segs).Some?
    ensures CanonicalLocation(langSegment, segs).value == "/" + langSegment + "/" + Join(CanonicalPages(segs), "/")
  {
    if segs != [] {
      JoinExtendLast(LowerAll(segs), ".html", "/");
    }
  }

  lemma PageSegmentsOfLocation(langSegment: string, pages: seq<string>)
    requires HasNo(langSegment, '/')
    requires pages != []
    requires forall i :: 0 <= i < |pages| ==> pages[i] != "" && HasNo(pages[i], '/')
    ensures PageSegments(langSegment, "/" + langSegment + "/" + Join(pages, "/")) == pages
  {
    if langSegment == "" {
      BareLocationSegments(pages);
    } else {
      LocaleLocationSegments(langSegment, pages);
    }
  }

  lemma BareLocationSegments(pages: seq<string>)
    requires forall i :: 0 <= i < |pages| ==> pages[i] != "" && HasNo(pages[i], '/')
    ensures SplitNonEmpty("/" + "" + "/" + Join(pages, "/"), '/') == pages
  {
    BareLocation(Join(pages, "/"));
    SplitNonEmptyAfterSeparator("/" + Join(pages, "/"));
    SplitRootedJoin(pages);
  }

  lemma BareLocation(body: string)
    ensures "/" + "" + "/" + body == "/" + ("/" + body)
  {
  }

  lemma LocaleLocationSegments(langSegment: string, pages: seq<string>)
    requires langSegment != "" && HasNo(langSegment, '/')
    requires pages != []
    requires forall i :: 0 <= i < |pages| ==> pages[i] != "" && HasNo(pages[i], '/')
    ensures SplitNonEmpty("/" + langSegment + "/" + Join(pages, "/"), '/') == [langSegment] + pages
  {
    var segs := [langSegment] + pages;
    LocaleLocation(langSegment, pages);
    forall i | 0 <= i < |segs| ensures segs[i] != "" && HasNo(segs[i], '/') {
      if i > 0 {
        assert segs[i] == pages[i - 1];
      }
    }
    SplitRootedJoin(segs);
  }

  lemma LocaleLocation(langSegment: string, pages: seq<string>)
    requires pages != []
    ensures "/" + langSegment + "/" + Join(pages, "/") == "/" + Join([langSegment] + pages, "/")
  {
    var xs := [langSegment] + pages;
    assert xs[0] == langSegment && xs[1..] == pages;
  }

  /** When a redirect is due, the last canonical segment is a processable ".html" page. */
  lemma CanonicalPageIsHtml(segs: seq<string>)
    requires forall i :: 0 <= i < |segs| ==> segs[i] != "" && HasNo(segs[i], '/')
    requires CanProcess(LastOrDefault(segs))
    requires segs == [] || !EndsWithIgnoreCase(segs[|segs| - 1], ".html")
    ensures var pages := CanonicalPages(segs);
      CanProcess(LastOrDefault(pages)) && EndsWithIgnoreCase(pages[|pages| - 1], ".html")
  {
    var pages := CanonicalPages(segs);
    var page := pages[|pages| - 1];
    if segs == [] {
      assert page == "index.html";
      assert page[|page| - 5..] == ".html";
    } else {
      var last := segs[|segs| - 1];
      OrdinalSuffixIgnoresCase(last, ".html");
      assert HasNo(last, '.');
      LowerKeepsPunctuation(last);
      assert page == Lower(last) + ".html";
      assert page[0] == Lower(last)[0];
      assert page[|page| - 5..] == ".html";
    }
    assert EndsWith(page, ".html");
  }

  /** With the locale set, the locale segment is skipped and the page lower-cased: "/en/About" redirects to "/en/about.html". */
  lemma CanonicalRedirectWithLocale(apps: seq<DomainApp>, root: string, auto: bool, files: map<string, string>, readFails: bool)
    requires |apps| > 0
    ensures Decide(apps, root, auto, "GET", Some(apps[0].host), Some("en"), "/en/About", None, files, readFails)
      == CanonicalRedirect("/en/about.html")
  {
    TenantRequest(apps);
    LocalePageSegments();
    AboutLocation("en");
    EnAboutLocation();
  }

  lemma EnAboutLocation()
    ensures "/" + "en" + "/about.html" == "/en/about.html"
  {
  }

  /** Without a locale the whole path is the page: "/About" redirects to "//about.html". */
  lemma CanonicalRedirectWithoutLocale(apps: seq<DomainApp>, root: string, auto: bool, files: map<string, string>, readFails: bool)
    requires |apps| > 0
    ensures Decide(apps, root, auto, "GET", Some(apps[0].host), None, "/About", None, files, readFails)
      == CanonicalRedirect("//about.html")
  {
    TenantRequest(apps);
    BarePageSegments();
    AboutLocation("");
    EmptyLocaleAboutLocation();
  }

  lemma EmptyLocaleAboutLocation()
    ensures "/" + "" + "/about.html" == "//about.html"
  {
  }

  lemma TenantRequest(apps: seq<DomainApp>)
    requires |apps| > 0
    ensures EqualsIgnoreCase("GET", "GET") && IsDomainAppHost(apps, Some(apps[0].host))
  {
    assert EqualsIgnoreCase(apps[0].host, apps[0].host);
  }

  lemma LocalePageSegments()
    ensures PageSegments("en", "/en/About") == ["About"]
  {
    assert "/en/About" == "/" + Join(["en", "About"], "/");
    SplitRootedJoin(["en", "About"]);
  }

  lemma BarePageSegments()
    ensures PageSegments("", "/About") == ["About"]
  {
    assert "/About" == "/" + Join(["About"], "/");
    SplitRootedJoin(["About"]);
  }

  lemma AboutLocation(lang: string)
    ensures CanProcess(LastOrDefault(["About"]))
    ensures CanonicalLocation(lang, ["About"]) == Some("/" + lang + "/about.html")
  {
    AboutPage();
    assert "/" + lang + "/" + "about" + ".html" == "/" + lang + "/about.html";
  }

  lemma AboutPage()
    ensures CanProcess(Some("About"))
    ensures LowerAll(["About"]) == ["about"] && Join(LowerAll(["About"]), "/") == "about"
    ensures !EndsWithIgnoreCase("About", ".html")
  {
    assert HasNo("About", '.');
    var l := Lower("About");
    assert LowerChar('A') == 'a';
    assert l[0] == 'a' && l[1] == 'b' && l[2] == 'o' && l[3] == 'u' && l[4] == 't';
    assert l == "about";
    assert Lower(".html")[0] == '.';
    assert "About"[0..] == "About";
  }

  // ---------------------------------------------------------------------------
  // Lookup path against write-back path

  /**
   * For a lower-case page "/<lang>/<dirs>/<stem>.html" that is not an index page, the
   * path the renderer sees after RemoveHtmlExtension has the same cache file as the
   * path the middleware looked up, so the regenerated page is found next time.
   */
  lemma WriteBackHitsLookupFile(root: string, lang: string, dirs: seq<string>, stem: string)
    requires lang != "" && HasNo(lang, '/') && IsLowerCase(lang)
    requires forall i :: 0 <= i < |dirs| ==> dirs[i] != "" && HasNo(dirs[i], '/') && IsLowerCase(dirs[i])
    requires stem != "" && HasNo(stem, '/') && IsLowerCase(stem) && stem != "index"
    requires !EndsWithIgnoreCase(stem, ".html")
    ensures var path := "/" + Join([lang] + dirs + [stem + ".html"], "/");
      RemoveHtmlExtension(lang, dirs + [stem + ".html"]).Some?
      && CacheFilename(root, RemoveHtmlExtension(lang, dirs + [stem + ".html"]).value) == CacheFilename(root, path)
  {
    var head := [lang] + dirs;
    var page := stem + ".html";
    var prefix := "/" + Join(head, "/") + "/";
    RewriteOfPage(lang, dirs, stem);
    RootedJoinAppend(head, stem);
    RootedJoinAppend(head, page);
    assert [lang] + dirs + [page] == head + [page];
    PageUnderFolder(root, prefix, stem);
  }

  /** A page named with or without ".html" under a folder path has one cache file. */
  lemma PageUnderFolder(root: string, prefix: string, stem: string)
    requires prefix != "" && prefix[|prefix| - 1] == '/'
    requires stem != "" && HasNo(stem, '/') && !EndsWithIgnoreCase(stem, ".html")
    ensures CacheFilename(root, prefix + stem) == CacheFilename(root, prefix + (stem + ".html"))
  {
    var path := prefix + stem;
    assert path + ".html" == prefix + (stem + ".html");
    assert path[|path| - 1..] == [stem[|stem| - 1]];
    NotHtmlAfterSlash(prefix, stem);
    HtmlSuffixIsOptional(root, path);
  }

  /** The rooted path of a segment list with one more segment. */
  lemma RootedJoinAppend(head: seq<string>, last: string)
    requires head != []
    ensures "/" + Join(head + [last], "/") == "/" + Join(head, "/") + "/" + last
  {
    JoinAppend(head, last, "/");
  }

  /** RemoveHtmlExtension on a lower-case page drops exactly its ".html". */
  lemma RewriteOfPage(lang: string, dirs: seq<string>, stem: string)
    requires IsLowerCase(lang)
    requires forall i :: 0 <= i < |dirs| ==> IsLowerCase(dirs[i])
    requires IsLowerCase(stem) && stem != "index"
    ensures RemoveHtmlExtension(lang, dirs + [stem + ".html"]) == Some("/" + Join([lang] + dirs + [stem], "/"))
  {
    RewriteOfAnyPage(lang, dirs, stem);
    LowerCaseSegments(lang, dirs, stem);
  }

  lemma LowerCaseSegments(lang: string, dirs: seq<string>, stem: string)
    requires IsLowerCase(lang)
    requires forall i :: 0 <= i < |dirs| ==> IsLowerCase(dirs[i])
    requires IsLowerCase(stem)
    ensures LowerAll([lang] + dirs + [stem]) == [lang] + dirs + [stem]
  {
    var all := [lang] + dirs + [stem];
    forall i | 0 <= i < |all| ensures IsLowerCase(all[i]) {
      if i == 0 {
      } else if i < |all| - 1 {
        assert all[i] == dirs[i - 1];
      } else {
      }
    }
    LowerAllOfLowerCase(all);
  }

  /** RemoveHtmlExtension drops the ".html" of a page other than "index.html" and lower-cases the rest. */
  lemma RewriteOfAnyPage(lang: string, dirs: seq<string>, stem: string)
    requires stem != "index"
    ensures RemoveHtmlExtension(lang, dirs + [stem + ".html"]) == Some("/" + Join(LowerAll([lang] + dirs + [stem]), "/"))
  {
    var page := stem + ".html";
    var segments := dirs + [page];
    assert EndsWith(page, ".html") by { assert page[|page| - 5..] == ".html"; }
    assert page[..|page| - 5] == stem;
    assert page != "index.html";
    assert segments[..|segments| - 1] == dirs;
    assert ([lang] + segments[..|segments| - 1]) + [page[..|page| - 5]] == [lang] + dirs + [stem];
  }

  /**
   * For an index page the two disagree: "/en/index.html" is looked up as
   * "en_index.html", but the renderer sees "/en" and writes "en.html", so the lookup
   * misses again on every later request.
   */
  lemma IndexPageWriteBackMissesLookup(root: string)
    ensures RemoveHtmlExtension("en", ["index.html"]) == Some("/en")
    ensures CacheFilename(root, "/en/index.html") == CacheFolder(root) + "/en_index.html"
    ensures CacheFilename(root, "/en") == CacheFolder(root) + "/en.html"
    ensures CacheFilename(root, "/en/index.html") != CacheFilename(root, "/en")
  {
    IndexPageRewrite();
    IndexPageLookupFile(root);
    LocaleRootFile(root);
    FlatNamesDiffer(CacheFolder(root) + "/");
  }

  /** RemoveHtmlExtension of "index.html" in any folder: the folder's own path, lower-cased. */
  lemma IndexPageOfAnyFolder(lang: string, dirs: seq<string>)
    ensures RemoveHtmlExtension(lang, dirs + ["index.html"]) == Some("/" + Join(LowerAll([lang] + dirs), "/"))
  {
    var segments := dirs + ["index.html"];
    assert EndsWith("index.html", ".html") by { assert "index.html"[5..] == ".html"; }
    assert segments[..|segments| - 1] == dirs;
  }

  /**
   * Every lower-case index page misses its write-back: "/<lang>/<dirs>/index.html" is
   * rewritten to its folder's path "/<lang>/<dirs>", and that path's cache file is not
   * the one the index page is looked up under, so the regenerated page is never found.
   */
  lemma IndexPageWriteBackAlwaysMisses(root: string, lang: string, dirs: seq<string>)
    requires lang != "" && HasNo(lang, '/') && IsLowerCase(lang)
    requires forall i :: 0 <= i < |dirs| ==> dirs[i] != "" && HasNo(dirs[i], '/') && IsLowerCase(dirs[i])
    ensures var folderPath := "/" + Join([lang] + dirs, "/");
      && RemoveHtmlExtension(lang, dirs + ["index.html"]) == Some(folderPath)
      && "/" + Join([lang] + dirs + ["index.html"], "/") == folderPath + "/index.html"
      && CacheFilename(root, folderPath + "/index.html") != CacheFilename(root, folderPath)
  {
    LowerCaseIndexPageRewrite(lang, dirs);
    IndexFolderPath(lang, dirs);
    IndexLookupIsLonger(root, "/" + Join([lang] + dirs, "/"));
  }

  /** The index page's path is its folder's path and "/index.html"; the folder's path does not end in '/'. */
  lemma IndexFolderPath(lang: string, dirs: seq<string>)
    requires lang != "" && HasNo(lang, '/')
    requires forall i :: 0 <= i < |dirs| ==> dirs[i] != "" && HasNo(dirs[i], '/')
    ensures var folderPath := "/" + Join([lang] + dirs, "/");
      && "/" + Join([lang] + dirs + ["index.html"], "/") == folderPath + "/index.html"
      && folderPath != [] && folderPath[|folderPath| - 1] != '/'
  {
    var head := [lang] + dirs;
    RootedJoinAppend(head, "index.html");
    SlashIndex("/" + Join(head, "/"));
    if dirs != [] {
      assert head[|head| - 1] == dirs[|dirs| - 1];
    }
    RootedJoinEndsInSegment(head);
  }

  lemma LowerCaseIndexPageRewrite(lang: string, dirs: seq<string>)
    requires IsLowerCase(lang)
    requires forall i :: 0 <= i < |dirs| ==> IsLowerCase(dirs[i])
    ensures RemoveHtmlExtension(lang, dirs + ["index.html"]) == Some("/" + Join([lang] + dirs, "/"))
  {
    IndexPageOfAnyFolder(lang, dirs);
    LowerCaseHead(lang, dirs);
  }

  lemma LowerCaseHead(lang: string, dirs: seq<string>)
    requires IsLowerCase(lang)
    requires forall i :: 0 <= i < |dirs| ==> IsLowerCase(dirs[i])
    ensures LowerAll([lang] + dirs) == [lang] + dirs
  {
    var head := [lang] + dirs;
    forall i | 0 <= i < |head| ensures IsLowerCase(head[i]) {
      if i > 0 {
        assert head[i] == dirs[i - 1];
      }
    }
    LowerAllOfLowerCase(head);
  }

  lemma SlashIndex(p: string)
    ensures p + "/" + "index.html" == p + "/index.html"
  {
    assert "/" + "index.html" == "/index.html";
  }

  /** A rooted join whose last segment is a plain name does not end in '/'. */
  lemma RootedJoinEndsInSegment(head: seq<string>)
    requires head != [] && head[|head| - 1] != "" && HasNo(head[|head| - 1], '/')
    ensures var p := "/" + Join(head, "/"); p[|p| - 1] != '/'
  {
    var n := |head|;
    if n > 1 {
      assert head == head[..n - 1] + [head[n - 1]];
      JoinAppend(head[..n - 1], head[n - 1], "/");
    }
  }

  /**
   * A path not ending in '/' and the "index.html" below it never share a cache file:
   * the index page's file name is the longer one, by "_index.html" against ".html" or nothing.
   */
  lemma IndexLookupIsLonger(root: string, p: string)
    requires p != [] && p[|p| - 1] != '/'
    ensures CacheFilename(root, p + "/index.html") != CacheFilename(root, p)
  {
    var page := p + "/index.html";
    assert page[|page| - 5..] == ".html";
    OrdinalSuffixIgnoresCase(page, ".html");
    HtmlPathKeepsItsName(root, page);
    TrimOfUnslashedEnd(page);
    TrimOfUnslashedEnd(p);
    LeadingCountAppend(p, "/index.html");
    if EndsWithIgnoreCase(p, ".html") {
      HtmlPathKeepsItsName(root, p);
    } else {
      PagePathMapsToFlatFile(root, p);
    }
    assert |CacheFilename(root, page)| != |CacheFilename(root, p)|;
  }

  lemma FlatNamesDiffer(folder: string)
    ensures folder + "en_index.html" != folder + "en.html"
  {
    assert (folder + "en_index.html")[|folder| + 2] == '_';
    assert (folder + "en.html")[|folder| + 2] == '.';
  }

  lemma IndexPageRewrite()
    ensures RemoveHtmlExtension("en", ["index.html"]) == Some("/en")
  {
    assert EndsWith("index.html", ".html") by { assert "index.html"[5..] == ".html"; }
    assert ["index.html"][..0] == [];
    assert ["en"] + ["index.html"][..0] == ["en"];
    LowerAllOfLowerCase(["en"]);
    assert "/" + Join(["en"], "/") == "/en";
  }

  lemma IndexPageLookupFile(root: string)
    ensures CacheFilename(root, "/en/index.html") == CacheFolder(root) + "/en_index.html"
  {
    IndexPageIsHtml();
    HtmlPathKeepsItsName(root, "/en/index.html");
    IndexPageTrimmed();
    IndexPageFlattened();
    SlashEnIndex(CacheFolder(root));
  }

  lemma SlashEnIndex(p: string)
    ensures p + "/" + "en_index.html" == p + "/en_index.html"
  {
    assert "/" + "en_index.html" == "/en_index.html";
  }

  lemma IndexPageIsHtml()
    ensures EndsWithIgnoreCase("/en/index.html", ".html")
  {
    var p := "/en/index.html";
    assert p[|p| - 5..] == ".html";
    LowerOfLowerCase(".html");
  }

  lemma IndexPageTrimmed()
    ensures Trim("/en/index.html", '/') == "en/index.html"
  {
    var p := "/en/index.html";
    assert LeadingCount(p, '/') == 1 by { assert p[1..] == "en/index.html"; assert p[1] != '/'; }
    assert TrailingCount("en/index.html", '/') == 0;
  }

  lemma IndexPageFlattened()
    ensures Replace("en/index.html", '/', '_') == "en_index.html"
  {
    var r := Replace("en/index.html", '/', '_');
    assert r[2] == '_';
  }

  lemma LocaleRootFile(root: string)
    ensures CacheFilename(root, "/en") == CacheFolder(root) + "/en.html"
  {
    assert !EndsWithIgnoreCase("/en", ".html");
    assert !EndsWith("/en", "/") by { assert "/en"[2..] != "/"; }
    PagePathMapsToFlatFile(root, "/en");
    assert LeadingCount("/en", '/') == 1 by { assert "/en"[1..] == "en"; }
    assert TrailingCount("en", '/') == 0;
    assert Trim("/en", '/') == "en";
    assert Replace("en", '/', '_') == "en";
  }

  // ---------------------------------------------------------------------------
  // Helpers

  lemma OrdinalSuffixIgnoresCase(s: string, suffix: string)
    ensures EndsWith(s, suffix) ==> EndsWithIgnoreCase(s, suffix)
  {
  }

  lemma LowerAllIsLowerCase(xs: seq<string>)
    ensures forall i :: 0 <= i < |LowerAll(xs)| ==> IsLowerCase(LowerAll(xs)[i])
  {
    forall i | 0 <= i < |xs| ensures IsLowerCase(LowerAll(xs)[i]) {
      LowerIsLowerCase(xs[i]);
    }
  }

  /** A string whose '/' falls within its last five characters does not end in ".html". */
  lemma NotHtmlAfterSlash(prefix: string, stem: string)
    requires prefix != "" && prefix[|prefix| - 1] == '/'
    requires !EndsWithIgnoreCase(stem, ".html")
    ensures !EndsWithIgnoreCase(prefix + stem, ".html")
  {
    var s := prefix + stem;
    if |stem| >= 5 {
      assert s[|s| - 5..] == stem[|stem| - 5..];
    } else if |s| >= 5 {
      var j := |prefix| - 1 - (|s| - 5);
      assert s[|s| - 5..][j] == '/';
      assert Lower(s[|s| - 5..])[j] == '/';
      assert Lower(".html")[j] != '/';
    }
  }
}
