/**
 * LangRouteConstraint: the `{lang:SupportedLocals}` route constraint, which admits a
 * route value only when it names an enabled locale code.
 */
module LangRouteConstraint {
  import opened Wrappers
  import opened Text
  import opened SupportedLocalCodes

  /** A route value: a string, or any other object. */
  datatype RouteValue = StringValue(s: string) | OtherValue

  /**
   * Enum.TryParse with ignoreCase: surrounding white space is trimmed, then the code
   * whose name equals the rest ignoring case is found.
   */
  function ParseCode(s: string): (r: Option<SupportedLocalCode>)
    ensures r.Some? ==> EqualsIgnoreCase(TrimWhiteSpace(s), Name(r.value))
    ensures r.None? ==> forall c :: !EqualsIgnoreCase(TrimWhiteSpace(s), Name(c))
  {
    var t := TrimWhiteSpace(s);
    if EqualsIgnoreCase(t, "En") then Some(En)
    else if EqualsIgnoreCase(t, "Jp") then Some(Jp)
    else if EqualsIgnoreCase(t, "De") then Some(De)
    else if EqualsIgnoreCase(t, "Es") then Some(Es)
    else if EqualsIgnoreCase(t, "Zh") then Some(Zh)
    else None
  }

  /**
   * Match: the value of `parameterName` must be a string that parses to a code, and
   * the answer is that code's IsEnabled. The route, the direction and the context
   * (beyond its being present) do not take part, so they are not parameters here.
   */
  function Match(values: map<string, RouteValue>, parameterName: string): (matched: bool)
    ensures matched ==> parameterName in values && values[parameterName].StringValue?
    ensures parameterName in values && values[parameterName].StringValue? ==>
      (matched <==> exists c :: EqualsIgnoreCase(TrimWhiteSpace(values[parameterName].s), Name(c)) && Attribute(c).isEnabled)
  {
    if parameterName in values && values[parameterName].StringValue? then
      var lang := values[parameterName].s;
      match ParseCode(lang)
      case Some(code) =>
        ParsedCodeIsUnique(TrimWhiteSpace(lang), code);
        Attribute(code).isEnabled
      case None => false
    else false
  }

  /** Names are distinct ignoring case, so a string names at most one code. */
  lemma ParsedCodeIsUnique(s: string, code: SupportedLocalCode)
    requires EqualsIgnoreCase(s, Name(code))
    ensures forall c :: EqualsIgnoreCase(s, Name(c)) ==> c == code
  {
    forall c | EqualsIgnoreCase(s, Name(c)) ensures c == code {
      assert Lower(Name(c)) == Lower(Name(code));
      assert Lower(Name(c))[0] == Lower(Name(code))[0];
      assert Lower(Name(c))[1] == Lower(Name(code))[1];
    }
  }

  /** "EN", "jp" and "De" are admitted; "zh" is a known but disabled code; "fr" names no code. */
  lemma MatchExamples(p: string)
    ensures Match(map[p := StringValue("EN")], p)
    ensures Match(map[p := StringValue("jp")], p)
    ensures Match(map[p := StringValue("De")], p)
    ensures !Match(map[p := StringValue("zh")], p)
    ensures !Match(map[p := StringValue("fr")], p)
    ensures !Match(map[p := OtherValue], p)
    ensures !Match(map[], p)
  {
    EnabledNamesMatch(p);
    NamedCodeMatches(p, "zh", Zh);
    UnknownNameDoesNotMatch(p);
  }

  lemma EnabledNamesMatch(p: string)
    ensures Match(map[p := StringValue("EN")], p)
    ensures Match(map[p := StringValue("jp")], p)
    ensures Match(map[p := StringValue("De")], p)
  {
    NamedCodeMatches(p, "EN", En);
    NamedCodeMatches(p, "jp", Jp);
    NamedCodeMatches(p, "De", De);
  }

  /** A value spelling a code's name matches exactly when that code is enabled. */
  lemma NamedCodeMatches(p: string, s: string, c: SupportedLocalCode)
    requires |s| == 2 && !IsWhiteSpace(s[0]) && !IsWhiteSpace(s[1]) && Lower(s) == Lower(Name(c))
    ensures Match(map[p := StringValue(s)], p) == Attribute(c).isEnabled
  {
    TrimOfTrimmed(s);
    ParseName(c, s);
  }

  lemma UnknownNameDoesNotMatch(p: string)
    ensures !Match(map[p := StringValue("fr")], p)
  {
    TrimOfTrimmed("fr");
    assert Lower("fr") == "fr";
  }

  /** Surrounding white space is trimmed before the parse, so " en " is admitted. */
  lemma PaddedValueMatches(p: string)
    ensures Match(map[p := StringValue(" en ")], p)
  {
    assert " en "[1..] == "en ";
    assert "en "[..2] == "en";
    TrimOfTrimmed("en");
    assert TrimWhiteSpace(" en ") == "en";
    ParseName(En, " en ");
  }

  /** Every code's own name, in any casing and with any surrounding white space, parses back to it. */
  lemma ParseName(c: SupportedLocalCode, s: string)
    requires EqualsIgnoreCase(TrimWhiteSpace(s), Name(c))
    ensures ParseCode(s) == Some(c)
  {
    ParsedCodeIsUnique(TrimWhiteSpace(s), c);
  }
}
