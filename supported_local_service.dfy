/**
 * SupportedLocalService: the list of enabled locales, default first, built from the
 * code table.
 */
module SupportedLocalService {
  import opened SupportedLocalCodes

  /**
   * What the loop builds from `codes`, visited in order: a disabled code is skipped,
   * a default code is inserted at the front and any other code appended.
   */
  function EnabledLocals(codes: seq<SupportedLocalCode>): seq<SupportedLocalCode> {
    if codes == [] then []
    else
      var before := EnabledLocals(codes[..|codes| - 1]);
      var code := codes[|codes| - 1];
      if !Attribute(code).isEnabled then before
      else if Attribute(code).isDefault then [code] + before
      else before + [code]
  }

  /** The enabled codes with the default flag `isDefault`, in their order in `codes`. */
  function EnabledWith(codes: seq<SupportedLocalCode>, isDefault: bool): seq<SupportedLocalCode> {
    if codes == [] then []
    else
      var code := codes[0];
      var rest := EnabledWith(codes[1..], isDefault);
      if Attribute(code).isEnabled && Attribute(code).isDefault == isDefault then [code] + rest else rest
  }

  function Reverse<T>(s: seq<T>): (r: seq<T>)
    ensures |r| == |s|
    ensures forall i :: 0 <= i < |s| ==> r[i] == s[|s| - 1 - i]
  {
    if s == [] then [] else Reverse(s[1..]) + [s[0]]
  }

  /** GetAllEnabledLocals: one pass over the declared codes. */
  method GetAllEnabledLocals() returns (enabledLocals: seq<SupportedLocalCode>)
    ensures enabledLocals == EnabledLocals(AllCodes)
  {
    enabledLocals := [];
    for i := 0 to |AllCodes|
      invariant enabledLocals == EnabledLocals(AllCodes[..i])
    {
      var code := AllCodes[i];
      assert AllCodes[..i + 1][..i] == AllCodes[..i];
      var attribute := Attribute(code);
      if attribute.isEnabled {
        if attribute.isDefault {
          enabledLocals := [code] + enabledLocals;
        } else {
          enabledLocals := enabledLocals + [code];
        }
      }
    }
    assert AllCodes[..|AllCodes|] == AllCodes;
  }

  // ---------------------------------------------------------------------------
  // Properties

  /** The defaults come first, the later-declared default foremost; the other enabled codes follow in order. */
  lemma {:induction false} EnabledLocalsOrder(codes: seq<SupportedLocalCode>)
    ensures EnabledLocals(codes) == Reverse(EnabledWith(codes, true)) + EnabledWith(codes, false)
    decreases |codes|
  {
    if codes != [] {
      var init := codes[..|codes| - 1];
      var code := codes[|codes| - 1];
      assert codes == init + [code];
      var defaults := EnabledWith(init, true);
      var others := EnabledWith(init, false);
      EnabledLocalsOrder(init);
      EnabledWithAppend(init, code, true);
      EnabledWithAppend(init, code, false);
      if !Attribute(code).isEnabled {
        assert EnabledWith(codes, true) == defaults;
        assert EnabledWith(codes, false) == others;
      } else if Attribute(code).isDefault {
        assert EnabledWith(codes, true) == defaults + [code];
        assert EnabledWith(codes, false) == others;
        ReverseAppend(defaults, code);
      } else {
        assert EnabledWith(codes, true) == defaults;
        assert EnabledWith(codes, false) == others + [code];
      }
    }
  }

  /** A code is listed exactly when it is declared and enabled. */
  lemma {:induction false} EnabledLocalsMembers(codes: seq<SupportedLocalCode>, c: SupportedLocalCode)
    ensures c in EnabledLocals(codes) <==> c in codes && Attribute(c).isEnabled
    decreases |codes|
  {
    if codes != [] {
      var init := codes[..|codes| - 1];
      EnabledLocalsMembers(init, c);
      assert codes == init + [codes[|codes| - 1]];
    }
  }

  /** No code is listed twice when none is declared twice, and the list is never longer than the declaration. */
  lemma {:induction false} EnabledLocalsDistinct(codes: seq<SupportedLocalCode>)
    requires forall i, j :: 0 <= i < j < |codes| ==> codes[i] != codes[j]
    ensures forall i, j :: 0 <= i < j < |EnabledLocals(codes)| ==> EnabledLocals(codes)[i] != EnabledLocals(codes)[j]
    ensures |EnabledLocals(codes)| <= |codes|
    decreases |codes|
  {
    if codes != [] {
      var init := codes[..|codes| - 1];
      var code := codes[|codes| - 1];
      EnabledLocalsDistinct(init);
      EnabledLocalsMembers(init, code);
      assert code !in init;
    }
  }

  /** With the shipped table the list is En, Jp, De, Es. */
  lemma ShippedLocales()
    ensures EnabledLocals(AllCodes) == [En, Jp, De, Es]
  {
    assert AllCodes[..4] == [En, Jp, De, Es];
    assert AllCodes[..3] == [En, Jp, De];
    assert AllCodes[..2] == [En, Jp];
    assert AllCodes[..1] == [En];
    assert [En, Jp, De, Es][..3] == [En, Jp, De];
    assert [En, Jp, De][..2] == [En, Jp];
    assert [En, Jp][..1] == [En];
    assert [En][..0] == [];
  }

  // ---------------------------------------------------------------------------
  // Helpers

  lemma {:induction false} EnabledWithAppend(codes: seq<SupportedLocalCode>, code: SupportedLocalCode, isDefault: bool)
    ensures EnabledWith(codes + [code], isDefault)
      == EnabledWith(codes, isDefault)
         + (if Attribute(code).isEnabled && Attribute(code).isDefault == isDefault then [code] else [])
    decreases |codes|
  {
    if codes == [] {
      assert [code][1..] == [];
    } else {
      assert (codes + [code])[1..] == codes[1..] + [code];
      EnabledWithAppend(codes[1..], code, isDefault);
    }
  }

  lemma ReverseAppend<T>(s: seq<T>, x: T)
    ensures Reverse(s + [x]) == [x] + Reverse(s)
  {
  }
}
