/**
 * The table of supported locale codes: the enum's members in declaration order and
 * the SupportLocal attribute each carries.
 */
module SupportedLocalCodes {

  datatype SupportedLocalCode = En | Jp | De | Es | Zh

  /** SupportLocalAttribute: whether a code is offered, and whether it is the default. */
  datatype SupportLocalAttribute = SupportLocalAttribute(isEnabled: bool, isDefault: bool)

  /** A `[SupportLocal]` with no named arguments: enabled, not the default. */
  const Unset: SupportLocalAttribute := SupportLocalAttribute(isEnabled := true, isDefault := false)

  /** The members in declaration order, as Enum.GetValues lists them. */
  const AllCodes: seq<SupportedLocalCode> := [En, Jp, De, Es, Zh]

  /**
   * The attribute declared on each member: only the named arguments differ from the
   * attribute's defaults. Every member carries one, so the lookup is total.
   */
  function Attribute(code: SupportedLocalCode): (a: SupportLocalAttribute)
    ensures a.isDefault <==> code == En
    ensures a.isEnabled <==> code != Zh
  {
    match code
    case En => Unset.(isDefault := true)
    case Jp => Unset.(isDefault := false)
    case De => Unset.(isDefault := false)
    case Es => Unset.(isDefault := false)
    case Zh => Unset.(isDefault := false, isEnabled := false)
  }

  /** The member's name, as Enum.ToString gives it. */
  function Name(code: SupportedLocalCode): (s: string)
    ensures |s| == 2
  {
    match code
    case En => "En"
    case Jp => "Jp"
    case De => "De"
    case Es => "Es"
    case Zh => "Zh"
  }

  /** Exactly five codes, each declared once, in the order En, Jp, De, Es, Zh. */
  lemma AllCodesListsEveryMemberOnce()
    ensures |AllCodes| == 5
    ensures forall c: SupportedLocalCode :: c in AllCodes
    ensures forall i, j :: 0 <= i < j < |AllCodes| ==> AllCodes[i] != AllCodes[j]
  {
    forall c: SupportedLocalCode ensures c in AllCodes {
      match c
      case En => assert AllCodes[0] == c;
      case Jp => assert AllCodes[1] == c;
      case De => assert AllCodes[2] == c;
      case Es => assert AllCodes[3] == c;
      case Zh => assert AllCodes[4] == c;
    }
  }

  /** An attribute that names no argument is enabled and not the default. */
  lemma UnsetFlagsDefault()
    ensures Unset.isEnabled && !Unset.isDefault
  {
  }

  /** Distinct codes have distinct names. */
  lemma NameInjective(a: SupportedLocalCode, b: SupportedLocalCode)
    ensures Name(a) == Name(b) ==> a == b
  {
  }
}
