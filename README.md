# DemoWeb request-to-page path, modelled in Dafny

DemoWeb is a multi-tenant ASP.NET Core site. Each tenant ("DomainApp") is served by host
name. It serves its pages under a locale prefix (`/en/...`), and each tenant has its own
Razor views. Pages can be kept as static HTML in a page cache under
`<content root>/.PageCaches`. This project models the request-to-page path and proves
properties of it:

- **Locales.** The enabled-locale list is built from the locale table. A route
  constraint accepts only enabled locales. The localization middleware redirects
  to a lower-cased or locale-prefixed URL, or accepts the locale.
- **Page cache.**
  - A request path maps to a cache file name.
  - The cache middleware passes through, regenerates, redirects to the canonical
    `.html` URL, serves from the cache, or rewrites the path for regeneration.
- **Endpoint table.** The endpoint data source holds a case-insensitive route-state
  dictionary. It builds a memoised endpoint list and publishes updates behind a
  change token.
- **Host filtering.** A matcher policy filters the candidate endpoints of a request
  by tenant host, using each endpoint's host metadata.
- **Dispatch.** The builder extension registers the data source once and resolves
  the tenant. It then takes the final request step: 404 outcomes, the tenant view
  locations, and a cache write before the response.
- **View engine helpers.** `_ViewStart` enumeration, `.`/`..` path resolution, path
  combination, view-location cache-key equality and route-value case normalisation.

Each source file maps to one module. `wrappers.dfy` (Option, Result) and `text.dfy`
(the .NET string operations the code relies on) are shared helpers. `http_context.dfy`
holds the parts of the request and response the middleware read and write.

Where the code changes state, the model does too:

- The HTTP context is a class whose fields the middleware assign.
- The endpoint data source is a class.
- The candidate set's validity flags are an array updated in place.
- The page cache is a file store class holding a path → content map.

Every such method is proved against a specification function. The properties are
lemmas about those functions.

## Model

| member | source | states |
|---|---|---|
| SupportedLocalCodes.Attribute | DemoWeb/Services/SupportedLocals/SupportedLocalCodes.cs:6-23 | En is the only default locale and Zh the only disabled one |
| SupportedLocalCodes.AllCodesListsEveryMemberOnce | DemoWeb/Services/SupportedLocals/SupportedLocalCodes.cs:6-23 | exactly five codes are declared, each once, in declaration order En, Jp, De, Es, Zh |
| SupportedLocalCodes.UnsetFlagsDefault | DemoWeb/Services/SupportedLocals/SupportLocalAttribute.cs:5-6 | an attribute that sets no flag is enabled and not default |
| SupportedLocalCodes.Name | DemoWeb/Services/SupportedLocals/SupportedLocalCodes.cs:10-22 | every member name is two letters long |
| SupportedLocalCodes.NameInjective | DemoWeb/Services/SupportedLocals/SupportedLocalCodes.cs:10-22 | distinct codes have distinct names |
| SupportedLocalService.GetAllEnabledLocals | DemoWeb/Services/SupportedLocals/SupportedLocalService.cs:5-24 | the loop that inserts defaults at the front and appends the other enabled codes computes EnabledLocals of the declared codes |
| SupportedLocalService.EnabledLocalsOrder | DemoWeb/Services/SupportedLocals/SupportedLocalService.cs:13-20 | the list is the enabled defaults in reverse declaration order (a later default ends up first), then the enabled non-defaults in declaration order |
| SupportedLocalService.EnabledLocalsMembers | DemoWeb/Services/SupportedLocals/SupportedLocalService.cs:8-11 | a code is in the list iff it is declared and its attribute is enabled |
| SupportedLocalService.EnabledLocalsDistinct | DemoWeb/Services/SupportedLocals/SupportedLocalService.cs:8-22 | no duplicates, and no longer than the declared codes |
| SupportedLocalService.ShippedLocales | DemoWeb/Services/SupportedLocals/SupportedLocalService.cs:5-23 | with the shipped table the list is [En, Jp, De, Es] |
| LangRouteConstraint.ParseCode | DemoWeb/Services/SupportedLocals/LangRouteConstraint.cs:11 | the case-insensitive parse trims surrounding white space, then finds a code whose name equals the rest ignoring case, or reports that no code does |
| LangRouteConstraint.ParsedCodeIsUnique | DemoWeb/Services/SupportedLocals/LangRouteConstraint.cs:11 | at most one code matches a value ignoring case |
| LangRouteConstraint.Match | DemoWeb/Services/SupportedLocals/LangRouteConstraint.cs:5-18 | true only for a present string value, and then iff its trimmed text names an enabled code ignoring case; route and direction play no part |
| LangRouteConstraint.MatchExamples | DemoWeb/Services/SupportedLocals/LangRouteConstraint.cs:9-17 | "EN", "jp", "De" match; "zh" (disabled), "fr" (unknown), a non-string value and a missing value do not |
| LangRouteConstraint.NamedCodeMatches | DemoWeb/Services/SupportedLocals/LangRouteConstraint.cs:9-17 | a value spelling a code's name in any case matches exactly when that code is enabled |
| LangRouteConstraint.PaddedValueMatches | DemoWeb/Services/SupportedLocals/LangRouteConstraint.cs:11 | " en " matches, because the parse trims surrounding white space |
| RequestLocalization.CultureNames | DemoWeb/Services/RequestLocalizationMiddleware.cs:18-19 | the supported cultures are the enabled locale names lower-cased, each two letters |
| RequestLocalization.RequestLocalizationMiddleware.constructor | DemoWeb/Services/RequestLocalizationMiddleware.cs:15-20 | the supported cultures are ["en", "jp", "de", "es"] |
| RequestLocalization.PreferredLanguage | DemoWeb/Services/RequestLocalizationMiddleware.cs:60-91 | a blank header or blank first tag gives "en"; otherwise the first tag's first two characters when supported, else the first supported culture, failing only when there is none |
| RequestLocalization.Decide | DemoWeb/Services/RequestLocalizationMiddleware.cs:22-102 | a non-GET or static request goes to next, and nothing else does; a first segment of two characters whose lower case is supported is accepted when already lower-case and otherwise redirected to "/" + its lower case + the other segments; any other path is redirected to "/" + PreferredLanguage + its segments, failing exactly when PreferredLanguage fails; a redirect keeps the query string |
| RequestLocalization.RequestLocalizationMiddleware.Invoke | DemoWeb/Services/RequestLocalizationMiddleware.cs:22-102 | performs Decide on the context: next with nothing set; a 301 with the redirect location; or Items["Lang"] set and next called |
| RequestLocalization.RedirectConverges | DemoWeb/Services/RequestLocalizationMiddleware.cs:41-91 | the target of any redirect is itself accepted, so no request is redirected twice |
| RequestLocalization.RedirectKeepsSegments | DemoWeb/Services/RequestLocalizationMiddleware.cs:41-91 | a redirect changes only the locale: the target's segments are a supported locale followed by the request's segments, without the first one when that was the locale in another case |
| RequestLocalization.UnknownLocaleIsPrefixed | DemoWeb/Services/RequestLocalizationMiddleware.cs:60-91 | "/xx/home" redirects to "/en/xx/home" |
| RequestLocalization.MissingLocaleIsPrefixed | DemoWeb/Services/RequestLocalizationMiddleware.cs:60-91 | "/home?a=1" (method "get") redirects to "/en/home" keeping "?a=1" |
| RequestLocalization.LocaleCaseIsNormalised | DemoWeb/Services/RequestLocalizationMiddleware.cs:41-54 | "/DE/home" redirects to "/de/home" |
| RequestLocalization.LowerCaseLocaleIsAccepted | DemoWeb/Services/RequestLocalizationMiddleware.cs:56 | "/de/home" is accepted with locale "de" |
| RequestLocalization.LongSegmentIsNotALocale | DemoWeb/Services/RequestLocalizationMiddleware.cs:41 | "/eng" is not taken as a locale and gets "/en" in front |
| RequestLocalization.FirstTagOfHeader | DemoWeb/Services/RequestLocalizationMiddleware.cs:63-70 | the first Accept-Language tag is the text before the first ',' and ';', trimmed |
| RequestLocalization.AcceptLanguagePicksSupportedTag | DemoWeb/Services/RequestLocalizationMiddleware.cs:63-85 | "de-DE;…" picks "de"; "ja-JP;…" (unsupported "ja") picks the first supported culture |
| RequestLocalization.BlankTagMeansEnglish | DemoWeb/Services/RequestLocalizationMiddleware.cs:63-70 | a blank first tag picks "en" even when "en" is not supported |
| EndpointPointMatcherMetadata.IsValidForCurrentContext | DemoWeb/Services/DomainEndpoints/EndpointPointMatcherMetadata.cs:8-28 | fails (null dereference) iff there is no host value; otherwise true iff the host is non-empty and ordinally equal to the metadata host |
| EndpointPointMatcherMetadata.HostTestIsCaseSensitive | DemoWeb/Services/DomainEndpoints/EndpointPointMatcherMetadata.cs:22 | "A.example" does not match "a.example" |
| EndpointPointMatcherMetadata.EmptyOrMissingHostNeverMatches | DemoWeb/Services/DomainEndpoints/EndpointPointMatcherMetadata.cs:17-25 | an empty request host, or a metadata without a host, never matches |
| DomainEndpointComparer.CompareMetadata | DemoWeb/Services/DomainEndpoints/DomainEndpointComparer.cs:7 | every pair compares equal |
| DomainEndpointComparer.CompareMetadataIsTotalPreorder | DemoWeb/Services/DomainEndpoints/DomainEndpointComparer.cs:7 | the comparison is reflexive, antisymmetric in sign and transitive |
| DomainEndpointComparer.ModeValue | DemoWeb/Services/DomainEndpoints/DomainEndpointComparer.cs:19-25 | the enum values lie in 0..3 and only None is 0 |
| DomainEndpointComparer.ModeValueInjective | DemoWeb/Services/DomainEndpoints/DomainEndpointComparer.cs:19-25 | distinct modes have distinct values |
| DomainEndpointComparer.NewFeature | DemoWeb/Services/DomainEndpoints/DomainEndpointComparer.cs:14-18 | a fresh feature has mode None and no tenant |
| DomainAppEndpointMatcherPolicy.Compare | DemoWeb/Services/DomainEndpoints/DomainAppEndpointMatcherPolicy.cs:10 | the policy's comparer ranks every pair of endpoints equal |
| DomainAppEndpointMatcherPolicy.AppliesToEndpoints | DemoWeb/Services/DomainEndpoints/DomainAppEndpointMatcherPolicy.cs:20-35 | true iff the node has dynamic endpoints or some endpoint carries host metadata |
| DomainAppEndpointMatcherPolicy.AnyHasMetadata | DemoWeb/Services/DomainEndpoints/DomainAppEndpointMatcherPolicy.cs:30-34 | true iff some endpoint carries host metadata |
| DomainAppEndpointMatcherPolicy.CandidateSet.SetValidity | DemoWeb/Services/DomainEndpoints/DomainAppEndpointMatcherPolicy.cs:58-62 | changes exactly the one flag |
| DomainAppEndpointMatcherPolicy.ApplyAsync | DemoWeb/Services/DomainEndpoints/DomainAppEndpointMatcherPolicy.cs:37-66 | fails iff the host is missing and some valid candidate has metadata, and then changes no flag; otherwise the flags become Filtered of the old flags; count and order stay |
| DomainAppEndpointMatcherPolicy.FilterOnlyClears | DemoWeb/Services/DomainEndpoints/DomainAppEndpointMatcherPolicy.cs:46-62 | a flag never goes from false to true; candidates without metadata keep their flag |
| DomainAppEndpointMatcherPolicy.FilterKeepsExactlyTheTenantsCandidates | DemoWeb/Services/DomainEndpoints/DomainAppEndpointMatcherPolicy.cs:44-63 | a candidate with metadata stays valid iff it was valid and the request host is non-empty and equals its host |
| DomainAppEndpointMatcherPolicy.FilterIsIdempotent | DemoWeb/Services/DomainEndpoints/DomainAppEndpointMatcherPolicy.cs:44-63 | applying the filter twice gives the same flags as once |
| DomainAppEndpointMatcherPolicy.TwoTenantsAreSeparated | DemoWeb/Services/DomainEndpoints/DomainAppEndpointMatcherPolicy.cs:44-63 | of two tenants' endpoints, a request with tenant A's host keeps only A's |
| DomainAppEndpointDataSource.TryAdd | DemoWeb/Services/DomainEndpoints/DomainAppEndpointDataSource.cs:158-162 | an existing key (ignoring case) leaves the dictionary alone, a new key is appended; keys stay distinct ignoring case |
| DomainAppEndpointDataSource.LoadStates | DemoWeb/Services/DomainEndpoints/DomainAppEndpointDataSource.cs:156-163 | loading keeps the keys distinct ignoring case |
| DomainAppEndpointDataSource.OnlyFirstTenantIsLoaded | DemoWeb/Services/DomainEndpoints/DomainAppEndpointDataSource.cs:158-162 | loading a list of tenants gives the two states of the first tenant only; later tenants never overwrite |
| DomainAppEndpointDataSource.ResourceKeyIsNotDefaultKey | DemoWeb/Services/DomainEndpoints/DomainAppEndpointDataSource.cs:160-161 | the two fixed keys differ even ignoring case, so both states are added |
| DomainAppEndpointDataSource.CreateEndpoint | DemoWeb/Services/DomainEndpoints/DomainAppEndpointDataSource.cs:75-98 | the endpoint has the given order, the pattern as display name and route pattern, host metadata with the state's host, and the pipeline |
| DomainAppEndpointDataSource.RebuildReusesCachedEndpoints | DemoWeb/Services/DomainEndpoints/DomainAppEndpointDataSource.cs:59-70 | after one build every state caches its endpoint, so a rebuild (even without a pipeline) yields the same endpoints and changes no state |
| DomainAppEndpointDataSource.BuiltEndpointsCarryTheirStatesHost | DemoWeb/Services/DomainEndpoints/DomainAppEndpointDataSource.cs:63-66 | an endpoint built for a state without a cached one has order 0, the pattern as display name and the state's host |
| DomainAppEndpointDataSource.DomainAppEndpointDataSource.constructor | DemoWeb/Services/DomainEndpoints/DomainAppEndpointDataSource.cs:25-31 | no endpoints, no states, no pipeline, a first uncancelled token |
| DomainAppEndpointDataSource.DomainAppEndpointDataSource.GetChangeToken | DemoWeb/Services/DomainEndpoints/DomainAppEndpointDataSource.cs:23 | the current token is not cancelled and is newer than every cancelled one |
| DomainAppEndpointDataSource.DomainAppEndpointDataSource.SetRequestProcessPipeline | DemoWeb/Services/DomainEndpoints/DomainAppEndpointDataSource.cs:16 | the pipeline is set |
| DomainAppEndpointDataSource.DomainAppEndpointDataSource.InitialLoadAsync | DemoWeb/Services/DomainEndpoints/DomainAppEndpointDataSource.cs:132-171 | the states become LoadStates of the tenants; returns the data source itself |
| DomainAppEndpointDataSource.DomainAppEndpointDataSource.UpdateEndpoints | DemoWeb/Services/DomainEndpoints/DomainAppEndpointDataSource.cs:106-130 | publishes the new list, installs a fresh token and cancels exactly the old one |
| DomainAppEndpointDataSource.DomainAppEndpointDataSource.CreateEndpoints | DemoWeb/Services/DomainEndpoints/DomainAppEndpointDataSource.cs:53-73 | fails, changing nothing, iff some state has no cached endpoint and there is no pipeline; otherwise one endpoint per state (cached or built), cached into the states, and published through UpdateEndpoints |
| DomainAppEndpointDataSource.DomainAppEndpointDataSource.GetEndpoints | DemoWeb/Services/DomainEndpoints/DomainAppEndpointDataSource.cs:33-50 | returns the published list without rebuilding once there is one; otherwise builds and publishes it (with a fresh token that cancels the old one) exactly when the build can succeed, and a failed build leaves states, list and tokens as they were |
| PageCacheService.Combine | DemoWeb/Services/DomainEndpoints/PageCacheService.cs:20-31 | `Path.Combine` puts exactly one '/' between two parts when neither supplies one |
| PageCacheService.CombineLaws | DemoWeb/Services/DomainEndpoints/PageCacheService.cs:20-31 | for all arguments: an empty second part keeps the first; a rooted second part replaces it; otherwise the result starts with the first part, ends with the second and adds at most one separator |
| PageCacheService.CacheFilename | DemoWeb/Services/DomainEndpoints/PageCacheService.cs:12-35 | every cache file name lies under `<root>/.PageCaches/` |
| PageCacheService.CacheFolder | DemoWeb/Services/DomainEndpoints/PageCacheService.cs:6 | the cache folder does not end in a separator |
| PageCacheService.DirectoryPathMapsToIndex | DemoWeb/Services/DomainEndpoints/PageCacheService.cs:17-21 | an empty path or one ending in '/' maps to index.html in the folder named by the path trimmed of '/' |
| PageCacheService.PagePathMapsToFlatFile | DemoWeb/Services/DomainEndpoints/PageCacheService.cs:23-27 | any other path not ending in ".html" (ignoring case) maps to the trimmed path with '/' turned into '_', plus ".html" |
| PageCacheService.HtmlPathKeepsItsName | DemoWeb/Services/DomainEndpoints/PageCacheService.cs:28-32 | a path ending in ".html" maps to the trimmed path with '/' turned into '_' and no extra extension |
| PageCacheService.CacheFileIsUnderFolderAndHtml | DemoWeb/Services/DomainEndpoints/PageCacheService.cs:12-35 | every cache file lies under `<root>/.PageCaches/` and ends in ".html" ignoring case |
| PageCacheService.HtmlSuffixIsOptional | DemoWeb/Services/DomainEndpoints/PageCacheService.cs:23-32 | "P" and "P.html" map to the same file |
| PageCacheService.SlashAndUnderscoreCollide | DemoWeb/Services/DomainEndpoints/PageCacheService.cs:26 | "/a/b" and "/a_b" map to the same file |
| PageCacheService.WriteCacheFile | DemoWeb/Services/DomainEndpoints/PageCacheService.cs:37-44 | stores the content at exactly the cache file name of the path and changes no other entry; a failed write changes nothing |
| PageCachesMiddleware.CanProcess | DemoWeb/Services/DomainEndpoints/PageCachesMiddleware.cs:167-183 | true iff the last segment is absent or empty, has no '.', or does not start with '.' and ends with ".html" |
| PageCachesMiddleware.RemoveHtmlExtension | DemoWeb/Services/DomainEndpoints/PageCachesMiddleware.cs:134-150 | a rewrite happens iff the last segment ends with ".html"; the new path is rooted and lower-case |
| PageCachesMiddleware.WithMode | DemoWeb/Services/DomainEndpoints/PageCachesMiddleware.cs:152-162 | the feature gets the mode and keeps its tenant; a missing feature is created empty |
| PageCachesMiddleware.PageCachesMiddleware.SetDomainAppFeature | DemoWeb/Services/DomainEndpoints/PageCachesMiddleware.cs:152-162 | the context's feature becomes WithMode of the old one |
| PageCachesMiddleware.PageCachesMiddleware.constructor | DemoWeb/Services/DomainEndpoints/PageCachesMiddleware.cs:14-21 | AutoGenerateCache is on after construction |
| PageCachesMiddleware.CanonicalLocation | DemoWeb/Services/DomainEndpoints/PageCachesMiddleware.cs:75-89 | a redirect is due iff the last segment does not end in ".html" ignoring case; the location is "/" + lang + "/index.html" for the root and otherwise "/" + lang + "/" + the lower-cased segments joined by "/" + ".html" |
| PageCachesMiddleware.LookUp | DemoWeb/Services/DomainEndpoints/PageCachesMiddleware.cs:93-129 | serves the stored content iff the cache file exists and reads; a read failure iff it exists and the read fails; otherwise regenerates in AutoGenerating mode iff AutoGenerateCache is on, and is a 404 iff it is off |
| PageCachesMiddleware.Decide | DemoWeb/Services/DomainEndpoints/PageCachesMiddleware.cs:23-133 | anything but pass-through needs a GET to a tenant host, and for a GET to a tenant host the decision is PageDecision; served content is the cache file's |
| PageCachesMiddleware.PageDecision | DemoWeb/Services/DomainEndpoints/PageCachesMiddleware.cs:39-133 | pass-through iff the last segment cannot be processed; otherwise a truthy refresh flag regenerates in ForceGenerating mode with the rewritten path, and anything else is Canonicalise; a 404 only when AutoGenerateCache is off |
| PageCachesMiddleware.HtmlPagesAreLookedUp | DemoWeb/Services/DomainEndpoints/PageCachesMiddleware.cs:23-129 | a GET to a tenant host for a processable ".html" page without a refresh flag goes to the cache look-up: served content, read failure, AutoGenerating regeneration or 404, by whether the file exists, reads and AutoGenerateCache is on |
| PageCachesMiddleware.CanonicalRedirectIsFinal | DemoWeb/Services/DomainEndpoints/PageCachesMiddleware.cs:74-89 | requesting the location of a canonical redirect is neither passed through nor redirected again |
| PageCachesMiddleware.Canonicalise | DemoWeb/Services/DomainEndpoints/PageCachesMiddleware.cs:74-133 | a redirect exactly when CanonicalLocation gives one, to that location; otherwise the cache look-up |
| PageCachesMiddleware.PageCachesMiddleware.InvokeAsync | DemoWeb/Services/DomainEndpoints/PageCachesMiddleware.cs:23-133 | performs Decide on the context, with the effects Applied gives the outcome (path, mode, status, location, content type, body, next); never a 404 |
| PageCachesMiddleware.PageCachesMiddleware.ProcessPage | DemoWeb/Services/DomainEndpoints/PageCachesMiddleware.cs:39-133 | performs PageDecision on the context with the effects Applied gives the outcome; never a 404 |
| PageCachesMiddleware.PageCachesMiddleware.PassThroughPage | DemoWeb/Services/DomainEndpoints/PageCachesMiddleware.cs:55-59 | a page the middleware cannot process only runs next: the outcome is PassThrough and nothing else on the context changes |
| PageCachesMiddleware.PageCachesMiddleware.RedirectOrLookUp | DemoWeb/Services/DomainEndpoints/PageCachesMiddleware.cs:74-133 | performs Canonicalise on the context with the effects Applied gives the outcome; never a pass-through or a 404 |
| PageCachesMiddleware.PageCachesMiddleware.Redirect | DemoWeb/Services/DomainEndpoints/PageCachesMiddleware.cs:75-89 | status 301 and the Location header set to the canonical location |
| PageCachesMiddleware.PageCachesMiddleware.RewriteForGeneration | DemoWeb/Services/DomainEndpoints/PageCachesMiddleware.cs:64-72 | the path is rewritten when a new one is given, the generation mode is set and next runs |
| PageCachesMiddleware.PageCachesMiddleware.LookUpCache | DemoWeb/Services/DomainEndpoints/PageCachesMiddleware.cs:93-129 | performs LookUp with the effects Applied gives the outcome: a read failure falls through to next, a missing file is a 404 when AutoGenerateCache is off |
| PageCachesMiddleware.ForeignRequestsPassThrough | DemoWeb/Services/DomainEndpoints/PageCachesMiddleware.cs:26-37 | non-GET requests and unknown hosts pass through |
| PageCachesMiddleware.RefreshForcesRegeneration | DemoWeb/Services/DomainEndpoints/PageCachesMiddleware.cs:64-72 | RefreshCache=true rewrites the path in ForceGenerating mode, whatever the cache holds |
| PageCachesMiddleware.RefreshFlagValues | DemoWeb/Services/DomainEndpoints/PageCachesMiddleware.cs:64-65 | "TRUE" and "true\0" count as a true RefreshCache flag (bool.TryParse trims white space and '\0'); "truth" does not |
| PageCachesMiddleware.RedirectsPrecedeCacheLookup | DemoWeb/Services/DomainEndpoints/PageCachesMiddleware.cs:75-93 | a redirect does not depend on the cache |
| PageCachesMiddleware.PageRedirectsPrecedeCacheLookup | DemoWeb/Services/DomainEndpoints/PageCachesMiddleware.cs:75-93 | on the page rungs, a redirect does not depend on the cache or on AutoGenerateCache |
| PageCachesMiddleware.CanonicalRedirectWithLocale | DemoWeb/Services/DomainEndpoints/PageCachesMiddleware.cs:39-51 | with Items["Lang"]="en", "/en/About" redirects to "/en/about.html" |
| PageCachesMiddleware.CanonicalRedirectWithoutLocale | DemoWeb/Services/DomainEndpoints/PageCachesMiddleware.cs:39-51 | without Items["Lang"], "/About" redirects to "//about.html" (empty locale) |
| PageCachesMiddleware.WriteBackHitsLookupFile | DemoWeb/Services/DomainEndpoints/PageCachesMiddleware.cs:93-150 | for a lower-case non-index page, the rewritten path and the ".html" path name the same cache file |
| PageCachesMiddleware.RewriteOfAnyPage | DemoWeb/Services/DomainEndpoints/PageCachesMiddleware.cs:134-150 | the rewrite of a page is "/" + the lower-cased locale, folders and page name without ".html" |
| PageCachesMiddleware.IndexPageWriteBackMissesLookup | DemoWeb/Services/DomainEndpoints/PageCachesMiddleware.cs:134-150 | "/en/index.html" is looked up as en_index.html, but its rewrite "/en" is written as en.html |
| PageCachesMiddleware.IndexPageOfAnyFolder | DemoWeb/Services/DomainEndpoints/PageCachesMiddleware.cs:137-142 | for every locale and folders, "index.html" is rewritten to "/" + the lower-cased locale and folders, with no page name |
| PageCachesMiddleware.IndexPageWriteBackAlwaysMisses | DemoWeb/Services/DomainEndpoints/PageCachesMiddleware.cs:93-150 | for every lower-case locale and folders, the index page is rewritten to its folder's path, whose cache file differs from the one the index page is looked up under |
| PageCachesMiddleware.IndexLookupIsLonger | DemoWeb/Services/DomainEndpoints/PageCacheService.cs:12-35 | a path not ending in '/' and its "index.html" never share a cache file |
| NormalizedRouteValue.ViewStartPaths | DemoWeb/Services/DomainEndpoints/ViewEngins/NormalizedRouteValue.cs:29-39 | the enumeration yields at most its iteration budget of paths |
| NormalizedRouteValue.GetViewStartPaths | DemoWeb/Services/DomainEndpoints/ViewEngins/NormalizedRouteValue.cs:15-40 | fails iff the path is empty or does not start with '/'; otherwise yields ViewStartPaths with the 255-iteration cap ("/" yields nothing) |
| NormalizedRouteValue.ViewStartPathsShape | DemoWeb/Services/DomainEndpoints/ViewEngins/NormalizedRouteValue.cs:32-38 | each path is a prefix of the view path ending in '/' followed by "_ViewStart.cshtml", deepest first |
| NormalizedRouteValue.RootViewStartComesLast | DemoWeb/Services/DomainEndpoints/ViewEngins/NormalizedRouteValue.cs:32-38 | with no more '/' than iterations and no leading "//", the last path is "/_ViewStart.cshtml" |
| NormalizedRouteValue.ViewStartPathsVisitEveryFolder | DemoWeb/Services/DomainEndpoints/ViewEngins/NormalizedRouteValue.cs:32-38 | with no more '/' than iterations and no leading "//", one path is yielded per '/' of the view path, so with ViewStartPathsShape every enclosing folder's _ViewStart appears once, deepest first |
| NormalizedRouteValue.DoubleSlashMissesRoot | DemoWeb/Services/DomainEndpoints/ViewEngins/NormalizedRouteValue.cs:32 | "//a" yields only "//_ViewStart.cshtml": the loop stops at index 1 |
| NormalizedRouteValue.Tokens | DemoWeb/Services/DomainEndpoints/ViewEngins/NormalizedRouteValue.cs:225-233 | no token contains a separator |
| NormalizedRouteValue.ResolvePath | DemoWeb/Services/DomainEndpoints/ViewEngins/NormalizedRouteValue.cs:222-293 | the scan, stack and builder loops compute Resolved: the path itself when no segment is empty, "." or ".."; else the kept segments after '/'; the path itself when ".." climbs above the root |
| NormalizedRouteValue.ResolvedSegmentsArePlain | DemoWeb/Services/DomainEndpoints/ViewEngins/NormalizedRouteValue.cs:253-282 | the kept segments are non-empty, not "." or "..", and free of separators |
| NormalizedRouteValue.ResolvePathIsIdempotent | DemoWeb/Services/DomainEndpoints/ViewEngins/NormalizedRouteValue.cs:222-293 | resolving a resolved (non-empty) path changes nothing |
| NormalizedRouteValue.PlainPathIsResolved | DemoWeb/Services/DomainEndpoints/ViewEngins/NormalizedRouteValue.cs:233-251 | a rooted path of plain segments is returned unchanged |
| NormalizedRouteValue.EscapingTheRootKeepsThePath | DemoWeb/Services/DomainEndpoints/ViewEngins/NormalizedRouteValue.cs:262-269 | "/../" + anything is returned unchanged |
| NormalizedRouteValue.DotSegmentsAreResolved | DemoWeb/Services/DomainEndpoints/ViewEngins/NormalizedRouteValue.cs:253-292 | "/a/./b/../c" resolves to "/a/c" |
| NormalizedRouteValue.CombinePath | DemoWeb/Services/DomainEndpoints/ViewEngins/NormalizedRouteValue.cs:192-220 | an app-rooted second path is returned as it is |
| NormalizedRouteValue.CombineFindsSibling | DemoWeb/Services/DomainEndpoints/ViewEngins/NormalizedRouteValue.cs:192-220 | combining "/d1/…/dn/file" with a relative name gives "/d1/…/dn/name" |
| NormalizedRouteValue.Equals | DemoWeb/Services/DomainEndpoints/ViewEngins/NormalizedRouteValue.cs:122-155 | two keys are equal iff flag and names are equal and the expander dictionaries are both absent or have equal contents (whether or not they are the same object) |
| NormalizedRouteValue.SameCountAndEntriesMeansEqual | DemoWeb/Services/DomainEndpoints/ViewEngins/NormalizedRouteValue.cs:138-152 | same count plus every entry found in the other means equal dictionaries |
| NormalizedRouteValue.GetNormalizedRouteValue | DemoWeb/Services/DomainEndpoints/ViewEngins/NormalizedRouteValue.cs:310-336 | absent iff the request has no such key; a non-empty declared value that equals the request value ignoring case is returned; in every other case the request value itself is returned |
| NormalizedRouteValue.NormalizationIgnoresRequestCasing | DemoWeb/Services/DomainEndpoints/ViewEngins/NormalizedRouteValue.cs:320-333 | two requests whose values differ only in case get the same declared value |
| AppleEndpointBuilderExtension.FindTenant | DemoWeb/Services/DomainEndpoints/AppleEndpointBuilderExtension.cs:59-61 | finds a tenant iff some tenant host equals the request host ignoring case, and then the first such tenant |
| AppleEndpointBuilderExtension.TenantLookupAgreesWithCacheMiddleware | DemoWeb/Services/DomainEndpoints/AppleEndpointBuilderExtension.cs:59-61 | the pipeline finds a tenant exactly for the hosts the cache middleware treats as tenant hosts |
| AppleEndpointBuilderExtension.ResolveTenant | DemoWeb/Services/DomainEndpoints/AppleEndpointBuilderExtension.cs:52-64 | fails with the missing-feature or unknown-host error, changing nothing; otherwise stores the tenant in the feature and calls next |
| AppleEndpointBuilderExtension.FirstNamed | DemoWeb/Services/DomainEndpoints/AppleEndpointBuilderExtension.cs:224-226 | finds a type iff one is named as asked ignoring case, and then the first such type in the list |
| AppleEndpointBuilderExtension.FirstNamedAppend | DemoWeb/Services/DomainEndpoints/AppleEndpointBuilderExtension.cs:220-231 | searching a concatenation searches the first part first |
| AppleEndpointBuilderExtension.FindControllerType | DemoWeb/Services/DomainEndpoints/AppleEndpointBuilderExtension.cs:217-234 | the nested loop with early return finds the first type named "<controller>Controller" ignoring case across the parts in order |
| AppleEndpointBuilderExtension.ScanStep | DemoWeb/Services/DomainEndpoints/AppleEndpointBuilderExtension.cs:220-231 | scanning one more part finds what the earlier parts found, else what the new part finds |
| AppleEndpointBuilderExtension.ScanStopsAtFirstHit | DemoWeb/Services/DomainEndpoints/AppleEndpointBuilderExtension.cs:224-228 | a hit in the parts scanned so far is the hit over all parts, so the early return is right |
| AppleEndpointBuilderExtension.FindMethod | DemoWeb/Services/DomainEndpoints/AppleEndpointBuilderExtension.cs:103-104 | finds a method iff one is named as the action ignoring case, and then the first such method in the list |
| AppleEndpointBuilderExtension.ViewLocationFormats | DemoWeb/Services/DomainEndpoints/AppleEndpointBuilderExtension.cs:157-162 | two formats, both under "/SiteViews/<tenant>/Views/" |
| AppleEndpointBuilderExtension.AreaViewLocationFormats | DemoWeb/Services/DomainEndpoints/AppleEndpointBuilderExtension.cs:157-162 | two area formats, both under "/SiteViews/<tenant>/Areas/{2}/Views/" |
| AppleEndpointBuilderExtension.TenantViewsAreDisjoint | DemoWeb/Services/DomainEndpoints/AppleEndpointBuilderExtension.cs:157-162 | two tenants never share a view location format |
| AppleEndpointBuilderExtension.FinalDecision | DemoWeb/Services/DomainEndpoints/AppleEndpointBuilderExtension.cs:77-215 | a truth table over the outcomes: "not specified" iff controller or action is blank; "controller not found" iff they are given and no type matches; "no response" iff the type is found but the action is missing or returns no view result; a failure iff a view result meets a missing tenant or a failed cache write; "view not found" iff a tenant is present and the view is not; rendered iff all succeed, and then with the rendered text |
| AppleEndpointBuilderExtension.NotFoundMessage | DemoWeb/Services/DomainEndpoints/AppleEndpointBuilderExtension.cs:92-213 | exactly the three 404 outcomes have a message |
| AppleEndpointBuilderExtension.FinalRequestProcess | DemoWeb/Services/DomainEndpoints/AppleEndpointBuilderExtension.cs:77-215 | performs FinalDecision with the effects FinalApplied gives: a 404 sets status and appends its message; no response or a failure touches neither response nor cache; a rendered page is first written to the cache file of the request path, then to the body as text/html |
| AppleEndpointBuilderExtension.RequestPipeline | DemoWeb/Services/DomainEndpoints/AppleEndpointBuilderExtension.cs:48-75 | a missing feature or an unknown host fails with its message and leaves the context, the response and the page cache untouched; otherwise the tenant is recorded, next runs, and the outcome and its effects on status, body, content type and cache files are those of FinalDecision, failing only on a cache write failure |
| AppleEndpointBuilderExtension.MapAppleAppEndpoints | DemoWeb/Services/DomainEndpoints/AppleEndpointBuilderExtension.cs:26-46 | on the first call the data source gets its pipeline, is added and is loaded; a repeated call changes nothing |
| AppleEndpointBuilderExtension.FirstDomainAppSource | DemoWeb/Services/DomainEndpoints/AppleEndpointBuilderExtension.cs:33 | finds a registered data source iff one is registered |

## Left out

- I/O, clocks and logging: file reads and writes are a path → content map, with flags for a failed read or write. `Console` output and culture switching are not modelled.
- Framework collaborators, which are inputs or oracles:
  - `IsStaticResource`;
  - `ContainsDynamicEndpoints`;
  - controller discovery over assemblies (a list of type lists);
  - action invocation (whether the result is a view result);
  - view lookup and rendering (found, rendered text).
- Concurrency: the lock, `Volatile` reads and writes, and the change-token source. These are sequential state changes. A token is a generation number plus the set of cancelled generations.
- `RoutePatternFactory.Parse` and `RouteEndpointBuilder.Build`: an endpoint is a record of its order, display name, pattern, host metadata and pipeline. `RouteState.DomainApp` is never set by the load and is not modelled.
- Null arguments (`ArgumentNullException`) are not modelled. The one null that matters, a missing host value in the metadata test, is a failure.
- The exception wrapping in `InitialLoadAsync` is not modelled; the load cannot fail in the model.
- Exceptions thrown lazily by the `yield` enumerators are not modelled; `GetViewStartPaths` fails at once.
- `Enum.TryParse` accepts numeric and comma-separated input; the model accepts a case-insensitive member name, with surrounding white space trimmed, only.
- `bool.TryParse` is modelled as "true" ignoring case, after trimming white space and '\0' from both ends; its first, untrimmed attempt gives the same answer and is not modelled separately.
- Route-value dictionaries are case-insensitive on keys; the model's maps compare keys exactly.
- Path separators are always '/': platform separators in `Path.Combine` are not modelled.
- `GetHashCode` of the cache key is not modelled.
- `PathString` escaping is not modelled.
- Case mapping covers ASCII letters only; Unicode case mapping and culture rules are not modelled.
- Text.TrimWhiteSpace, Text.TrimWhiteSpaceAndNull and AppleEndpointBuilderExtension.IsNullOrWhiteSpace recognise ASCII white space only (space, tab, line feed, vertical tab, form feed, carriage return); .NET's `Trim` and `string.IsNullOrWhiteSpace` also accept the other Unicode white-space characters.
- The concurrent route-state dictionary is modelled as a list in insertion order.
- Response writes cannot fail in the model.
- StaticSiteGenerator.cs, Program.cs, HomeController.cs, PageBreadcrumb.cs and ViewLocationCacheItem.cs are not part of this model. EnumExtensions.cs is replaced by the explicit locale table.
- NormalizedRouteValue.GetNormalizedRouteValue: route values are given as their invariant-culture strings (None for null, which converts to ""); other value types and their formatting are not modelled.
- NormalizedRouteValue.ResolvePathIsIdempotent: stated only when the result is non-empty, because an empty path is outside what ResolvePath accepts ("/" and "/a/.." resolve to "").
- NormalizedRouteValue.CombinePath: requires a non-empty first path that contains '/', which the source only asserts in debug builds.
- NormalizedRouteValue.ViewStartPathsVisitEveryFolder: stated only when the path has at most as many '/' as the loop's iteration cap and does not start with "//"; "//a" yields one path for two '/' (DoubleSlashMissesRoot).
- NormalizedRouteValue.RootViewStartComesLast: stated only when the path has at most as many '/' as the loop's iteration cap; with more, the cap cuts the list before the root.
