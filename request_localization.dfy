/**
 * RequestLocalizationMiddleware: makes every page URL start with a lower-case
 * supported locale, redirecting (301) when it does not, and records the locale of
 * an accepted request in `Items["Lang"]`.
 */
module RequestLocalization {
  import opened Wrappers
  import opened Text
  import opened SupportedLocalCodes
  import opened SupportedLocalService
  import opened Http

  /** The supported-culture set: the names of `codes`, lower-cased, in list order. */
  function CultureNames(codes: seq<SupportedLocalCode>): (names: seq<string>)
    ensures |names| == |codes|
    ensures forall i :: 0 <= i < |codes| ==> names[i] == Lower(Name(codes[i])) && |names[i]| == 2
  {
    seq(|codes|, i requires 0 <= i < |codes| => Lower(Name(codes[i])))
  }

  /** What the middleware does with a request. */
  datatype LocaleOutcome =
    | Next                                  // handed on unchanged
    | Redirect(newPath: string, query: string)  // 301 to newPath + query
    | Accept(lang: string)                  // Items["Lang"] set, then handed on
  {
    function Location(): string
      requires Redirect?
    {
      newPath + query
    }
  }

  /** The first language tag of an Accept-Language value: before the first ',' and ';', trimmed. */
  function FirstLanguageTag(acceptLanguage: string): string {
    TrimWhiteSpace(Split(Split(acceptLanguage, {','})[0], {';'})[0])
  }

  /** At most the first two characters of a language tag ("de-DE" gives "de", "d" gives "d"). */
  function ShortTag(tag: string): (prefix: string)
    ensures prefix <= tag
    ensures |prefix| == if |tag| >= 2 then 2 else |tag|
  {
    if |tag| >= 2 then tag[..2] else tag
  }

  /**
   * The locale to prefix when the path carries none: "en" without a usable
   * Accept-Language tag, else the tag's first two characters when that exact string
   * is supported, else the first supported culture (which fails on an empty set).
   */
  function PreferredLanguage(cultures: seq<string>, acceptLanguage: string): (r: Result<string>)
    ensures r.Failure? ==> cultures == []
    ensures r.Success? ==> r.value == "en" || r.value in cultures
    ensures acceptLanguage == "" || FirstLanguageTag(acceptLanguage) == "" ==> r == Success("en")
    ensures acceptLanguage != "" && FirstLanguageTag(acceptLanguage) != "" ==>
      var shortLang := ShortTag(FirstLanguageTag(acceptLanguage));
      && (shortLang in cultures ==> r == Success(shortLang))
      && (shortLang !in cultures && cultures != [] ==> r == Success(cultures[0]))
      && (shortLang !in cultures && cultures == [] ==> r.Failure?)
  {
    if acceptLanguage == "" then Success("en")
    else
      var browserLang := FirstLanguageTag(acceptLanguage);
      if browserLang == "" then Success("en")
      else
        var shortLang := ShortTag(browserLang);
        if shortLang in cultures then Success(shortLang)
        else if cultures == [] then Failure("Sequence contains no elements")
        else Success(cultures[0])
  }

  /** The first path segment names a supported culture, ignoring case: two characters whose lower case is supported. */
  predicate HasLocaleSegment(cultures: seq<string>, segments: seq<string>) {
    |segments| > 0 && |segments[0]| == 2 && Lower(segments[0]) in cultures
  }

  /** The decision Invoke takes, from the request and the supported cultures. */
  function Decide(cultures: seq<string>, httpMethod: string, isStaticResource: bool, path: string,
                  queryString: string, acceptLanguage: string): (r: Result<LocaleOutcome>)
    ensures r == Success(Next) <==> !EqualsIgnoreCase(httpMethod, "GET") || isStaticResource
    ensures r.Success? && r.value.Accept? ==>
      var segments := SplitNonEmpty(path, '/');
      |segments| > 0 && segments[0] == r.value.lang && |r.value.lang| == 2 && r.value.lang in cultures
    ensures r.Success? && r.value.Redirect? ==> r.value.query == queryString
    ensures r.Failure? ==> cultures == []
    ensures EqualsIgnoreCase(httpMethod, "GET") && !isStaticResource ==>
      var segments := SplitNonEmpty(path, '/');
      && (HasLocaleSegment(cultures, segments) && Lower(segments[0]) != segments[0] ==>
            r == Success(Redirect("/" + Join([Lower(segments[0])] + segments[1..], "/"), queryString)))
      && (HasLocaleSegment(cultures, segments) && Lower(segments[0]) == segments[0] ==>
            r == Success(Accept(segments[0])))
      && (!HasLocaleSegment(cultures, segments) && PreferredLanguage(cultures, acceptLanguage).Success? ==>
            r == Success(Redirect("/" + Join([PreferredLanguage(cultures, acceptLanguage).value] + segments, "/"), queryString)))
      && (!HasLocaleSegment(cultures, segments) && PreferredLanguage(cultures, acceptLanguage).Failure? ==>
            r.Failure?)
  {
    if !EqualsIgnoreCase(httpMethod, "GET") || isStaticResource then Success(Next)
    else
      var segments := SplitNonEmpty(path, '/');
      if HasLocaleSegment(cultures, segments) then
        if Lower(segments[0]) != segments[0] then
          Success(Redirect("/" + Join([Lower(segments[0])] + segments[1..], "/"), queryString))
        else
          Success(Accept(segments[0]))
      else
        match PreferredLanguage(cultures, acceptLanguage)
        case Failure(e) => Failure(e)
        case Success(lang) => Success(Redirect("/" + Join([lang] + segments, "/"), queryString))
  }

  class RequestLocalizationMiddleware {
    const supportedCultures: seq<string>

    constructor ()
      ensures supportedCultures == CultureNames(EnabledLocals(AllCodes))
      ensures supportedCultures == ["en", "jp", "de", "es"]
    {
      var locals := GetAllEnabledLocals();
      supportedCultures := CultureNames(locals);
      ShippedLocales();
      ShippedCultureNames();
    }

    /** Invoke: applies the decision to the context. */
    method Invoke(ctx: HttpContext) returns (outcome: Result<LocaleOutcome>)
      modifies ctx`lang, ctx`status, ctx`location, ctx`nextCalled
      ensures outcome == Decide(supportedCultures, ctx.httpMethod, ctx.isStaticResource, ctx.path,
                                ctx.queryString, ctx.acceptLanguage)
      ensures outcome == Success(Next) ==>
        ctx.nextCalled && ctx.lang == old(ctx.lang) && ctx.status == old(ctx.status) && ctx.location == old(ctx.location)
      ensures outcome.Success? && outcome.value.Redirect? ==>
        ctx.status == 301 && ctx.location == Some(outcome.value.Location())
        && ctx.lang == old(ctx.lang) && ctx.nextCalled == old(ctx.nextCalled)
      ensures outcome.Success? && outcome.value.Accept? ==>
        ctx.lang == Some(outcome.value.lang) && ctx.nextCalled
        && ctx.status == old(ctx.status) && ctx.location == old(ctx.location)
      ensures outcome.Failure? ==>
        ctx.lang == old(ctx.lang) && ctx.status == old(ctx.status)
        && ctx.location == old(ctx.location) && ctx.nextCalled == old(ctx.nextCalled)
    {
      var path := ctx.path;
      if !EqualsIgnoreCase(ctx.httpMethod, "GET") {
        ctx.nextCalled := true;
        return Success(Next);
      }
      if ctx.isStaticResource {
        ctx.nextCalled := true;
        return Success(Next);
      }
      var segments := SplitNonEmpty(path, '/');
      var lang: Option<string> := None;
      if |segments| > 0 && |segments[0]| == 2 {
        var langSegment := Lower(segments[0]);
        if langSegment in supportedCultures {
          if langSegment != segments[0] {
            var newPath := "/" + Join([langSegment] + segments[1..], "/");
            ctx.status := 301;
            ctx.location := Some(newPath + ctx.queryString);
            return Success(Redirect(newPath, ctx.queryString));
          }
          lang := Some(segments[0]);
        }
      }
      if lang.None? {
        var preferred := PreferredLanguage(supportedCultures, ctx.acceptLanguage);
        if preferred.Failure? {
          return Failure(preferred.error);
        }
        var newPath := "/" + Join([preferred.value] + segments, "/");
        ctx.status := 301;
        ctx.location := Some(newPath + ctx.queryString);
        return Success(Redirect(newPath, ctx.queryString));
      }
      ctx.lang := lang;
      ctx.nextCalled := true;
      return Success(Accept(lang.value));
    }
  }

  // ---------------------------------------------------------------------------
  // Properties

  /** Cultures as the constructor builds them: two lower-case letters, "en" among them. */
  predicate WellFormedCultures(cultures: seq<string>) {
    "en" in cultures
    && forall i :: 0 <= i < |cultures| ==> |cultures[i]| == 2 && IsLowerCase(cultures[i]) && HasNo(cultures[i], '/')
  }

  /**
   * A redirect always lands on an accepted URL: requesting the redirect's path (with any
   * query and Accept-Language) accepts the locale it starts with, so no request is
   * redirected twice.
   */
  lemma RedirectConverges(cultures: seq<string>, httpMethod: string, path: string, queryString: string,
                          acceptLanguage: string, nextQuery: string, nextAcceptLanguage: string)
    requires WellFormedCultures(cultures)
    requires Decide(cultures, httpMethod, false, path, queryString, acceptLanguage).Success?
    requires Decide(cultures, httpMethod, false, path, queryString, acceptLanguage).value.Redirect?
    ensures var target := Decide(cultures, httpMethod, false, path, queryString, acceptLanguage).value.newPath;
      Decide(cultures, httpMethod, false, target, nextQuery, nextAcceptLanguage).Success?
      && Decide(cultures, httpMethod, false, target, nextQuery, nextAcceptLanguage).value.Accept?
  {
    var segments := SplitNonEmpty(path, '/');
    var target := Decide(cultures, httpMethod, false, path, queryString, acceptLanguage).value.newPath;
    var lang: string;
    if |segments| > 0 && |segments[0]| == 2 && Lower(segments[0]) in cultures {
      lang := Lower(segments[0]);
      LowerKeepsNoSlash(segments[0]);
      assert target == "/" + Join([lang] + segments[1..], "/");
      SegmentsWithHead(lang, segments[1..]);
      SplitRootedJoin([lang] + segments[1..]);
    } else {
      lang := PreferredLanguage(cultures, acceptLanguage).value;
      assert lang in cultures;
      assert target == "/" + Join([lang] + segments, "/");
      SegmentsWithHead(lang, segments);
      SplitRootedJoin([lang] + segments);
    }
    assert SplitNonEmpty(target, '/')[0] == lang;
    var k :| 0 <= k < |cultures| && cultures[k] == lang;
    assert IsLowerCase(lang) && |lang| == 2;
    LowerOfLowerCase(lang);
  }

  /**
   * A redirect only touches the locale: the target's segments are the locale followed by
   * the request's segments, minus the first one when that was the locale in another case.
   */
  lemma RedirectKeepsSegments(cultures: seq<string>, httpMethod: string, path: string, queryString: string,
                              acceptLanguage: string)
    requires WellFormedCultures(cultures)
    requires Decide(cultures, httpMethod, false, path, queryString, acceptLanguage).Success?
    requires Decide(cultures, httpMethod, false, path, queryString, acceptLanguage).value.Redirect?
    ensures var segments := SplitNonEmpty(path, '/');
      var targetSegments := SplitNonEmpty(Decide(cultures, httpMethod, false, path, queryString, acceptLanguage).value.newPath, '/');
      && |targetSegments| > 0 && targetSegments[0] in cultures
      && (HasLocaleSegment(cultures, segments) ==> targetSegments == [Lower(segments[0])] + segments[1..])
      && (!HasLocaleSegment(cultures, segments) ==> targetSegments == [targetSegments[0]] + segments)
  {
    var segments := SplitNonEmpty(path, '/');
    var target := Decide(cultures, httpMethod, false, path, queryString, acceptLanguage).value.newPath;
    if HasLocaleSegment(cultures, segments) {
      LowerKeepsNoSlash(segments[0]);
      SegmentsWithHead(Lower(segments[0]), segments[1..]);
      SplitRootedJoin([Lower(segments[0])] + segments[1..]);
    } else {
      var lang := PreferredLanguage(cultures, acceptLanguage).value;
      assert lang in cultures;
      var k :| 0 <= k < |cultures| && cultures[k] == lang;
      SegmentsWithHead(lang, segments);
      SplitRootedJoin([lang] + segments);
    }
  }

  /** Unknown locales get "en" in front of the whole path: "/xx/home" becomes "/en/xx/home". */
  lemma UnknownLocaleIsPrefixed()
    ensures Decide(["en", "jp", "de", "es"], "GET", false, "/xx/home", "", "")
      == Success(Redirect("/en/xx/home", ""))
  {
    var cultures := ["en", "jp", "de", "es"];
    assert EqualsIgnoreCase("GET", "GET");
    assert "/xx/home" == "/" + Join(["xx", "home"], "/");
    SplitRootedJoin(["xx", "home"]);
    assert Lower("xx") == "xx";
    assert "xx" !in cultures;
    assert PreferredLanguage(cultures, "") == Success("en");
    assert Join(["en"] + ["xx", "home"], "/") == "en/xx/home";
    assert "/" + "en/xx/home" == "/en/xx/home";
  }

  /** A path with no locale at all is prefixed too, and the query string is kept. */
  lemma MissingLocaleIsPrefixed()
    ensures Decide(["en", "jp", "de", "es"], "get", false, "/home", "?a=1", "")
      == Success(Redirect("/en/home", "?a=1"))
  {
    var cultures := ["en", "jp", "de", "es"];
    assert Lower("get") == "get" && Lower("GET") == "get";
    assert "/home" == "/" + Join(["home"], "/");
    SplitRootedJoin(["home"]);
    assert PreferredLanguage(cultures, "") == Success("en");
    assert Join(["en"] + ["home"], "/") == "en/home";
    assert "/" + "en/home" == "/en/home";
  }

  /** A supported locale in the wrong case is lower-cased in place. */
  lemma LocaleCaseIsNormalised()
    ensures Decide(["en", "jp", "de", "es"], "GET", false, "/DE/home", "?q", "")
      == Success(Redirect("/de/home", "?q"))
  {
    var cultures := ["en", "jp", "de", "es"];
    var segments := ["DE", "home"];
    assert EqualsIgnoreCase("GET", "GET");
    UpperCaseLocaleSegments();
    LowerOfUpperDE();
    assert cultures[2] == "de";
    assert HasLocaleSegment(cultures, segments);
    assert Lower(segments[0]) != segments[0];
    LowerCaseLocalePath();
  }

  lemma LowerOfUpperDE()
    ensures Lower("DE") == "de"
  {
    assert LowerChar('D') == 'd' && LowerChar('E') == 'e';
  }

  lemma UpperCaseLocaleSegments()
    ensures SplitNonEmpty("/DE/home", '/') == ["DE", "home"]
  {
    assert "/DE/home" == "/" + Join(["DE", "home"], "/");
    SplitRootedJoin(["DE", "home"]);
  }

  lemma LowerCaseLocalePath()
    ensures "/" + Join(["de"] + ["DE", "home"][1..], "/") == "/de/home"
  {
    assert ["de"] + ["DE", "home"][1..] == ["de", "home"];
    assert Join(["de", "home"], "/") == "de/home";
  }

  /** The exact lower-case form of a supported locale is accepted. */
  lemma LowerCaseLocaleIsAccepted()
    ensures Decide(["en", "jp", "de", "es"], "GET", false, "/de/home", "?q", "")
      == Success(Accept("de"))
  {
    assert EqualsIgnoreCase("GET", "GET");
    assert "/de/home" == "/" + Join(["de", "home"], "/");
    SplitRootedJoin(["de", "home"]);
    assert Lower("de") == "de";
  }

  /** A first segment longer than two letters is never taken as a locale: "/eng" becomes "/en/eng". */
  lemma LongSegmentIsNotALocale()
    ensures Decide(["en", "jp", "de", "es"], "GET", false, "/eng", "", "")
      == Success(Redirect("/en/eng", ""))
  {
    var cultures := ["en", "jp", "de", "es"];
    assert EqualsIgnoreCase("GET", "GET");
    assert "/eng" == "/" + Join(["eng"], "/");
    SplitRootedJoin(["eng"]);
    assert SplitNonEmpty("/eng", '/') == ["eng"];
    assert PreferredLanguage(cultures, "") == Success("en");
    assert Join(["en"] + ["eng"], "/") == "en/eng";
    assert "/" + "en/eng" == "/en/eng";
  }

  /** Only the part of the header before its first ',' and ';' is read. */
  lemma FirstTagOfHeader(tag: string, parameters: string, rest: string)
    requires HasNo(tag, ',') && HasNo(tag, ';') && HasNo(parameters, ',')
    ensures FirstLanguageTag(tag + [';'] + parameters + [','] + rest) == TrimWhiteSpace(tag)
  {
    var header := tag + [';'] + parameters + [','] + rest;
    var first := tag + [';'] + parameters;
    assert header == first + [','] + rest;
    SplitAfterSeparator(first, ',', rest, {','});
    SplitAfterSeparator(tag, ';', parameters, {';'});
  }

  /**
   * The browser's first tag picks the locale when its first two letters are supported
   * exactly ("de-DE" gives "de"); an unsupported one ("ja-JP") falls back to the first
   * supported culture.
   */
  lemma AcceptLanguagePicksSupportedTag(parameters: string, rest: string)
    requires HasNo(parameters, ',')
    ensures PreferredLanguage(["en", "jp", "de", "es"], "de-DE;" + parameters + "," + rest) == Success("de")
    ensures PreferredLanguage(["en", "jp", "de", "es"], "ja-JP;" + parameters + "," + rest) == Success("en")
  {
    FirstTagOfHeader("de-DE", parameters, rest);
    assert "de-DE;" + parameters + "," + rest == "de-DE" + [';'] + parameters + [','] + rest;
    assert TrimWhiteSpace("de-DE") == "de-DE";
    assert "de-DE"[..2] == "de";
    FirstTagOfHeader("ja-JP", parameters, rest);
    assert "ja-JP;" + parameters + "," + rest == "ja-JP" + [';'] + parameters + [','] + rest;
    assert TrimWhiteSpace("ja-JP") == "ja-JP";
    assert "ja-JP"[..2] == "ja";
  }

  /** A blank first tag means "en". */
  lemma BlankTagMeansEnglish()
    ensures PreferredLanguage(["jp", "de"], " ;q=1") == Success("en")
  {
    var header := " ;q=1";
    SplitWithoutSeparator(header, {','});
    assert header == " " + [';'] + "q=1";
    SplitAfterSeparator(" ", ';', "q=1", {';'});
    assert TrimWhiteSpace(" ") == "";
  }

  /** The constructor's supported set for the shipped table. */
  lemma ShippedCultureNames()
    ensures CultureNames([En, Jp, De, Es]) == ["en", "jp", "de", "es"]
  {
    var names := CultureNames([En, Jp, De, Es]);
    assert names[0] == Lower("En") == "en";
    assert names[1] == Lower("Jp") == "jp";
    assert names[2] == Lower("De") == "de";
    assert names[3] == Lower("Es") == "es";
  }

  lemma LowerKeepsNoSlash(s: string)
    requires HasNo(s, '/')
    ensures HasNo(Lower(s), '/') && |Lower(s)| == |s|
  {
  }
}
