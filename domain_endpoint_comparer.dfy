/**
 * The endpoint comparer registered for host metadata, the per-request generation
 * mode, and the request feature that carries the mode and the resolved tenant.
 */
module DomainEndpointComparer {
  import opened Wrappers
  import opened DomainApps

  /** Why (if at all) the renderer must produce a cache artifact for this request. */
  datatype GenerateMode = None | ForceGenerating | AutoGenerating | BatchGenerating

  /** The enum's underlying integer values. */
  function ModeValue(m: GenerateMode): (v: int)
    ensures 0 <= v <= 3
    ensures v == 0 <==> m == GenerateMode.None
  {
    match m
    case None => 0
    case ForceGenerating => 1
    case AutoGenerating => 2
    case BatchGenerating => 3
  }

  lemma ModeValueInjective(m: GenerateMode, n: GenerateMode)
    ensures ModeValue(m) == ModeValue(n) ==> m == n
  {
  }

  /** DomainAppFeature: a generation mode and the tenant, both settable. */
  datatype DomainAppFeature = DomainAppFeature(generateMode: GenerateMode, domainApp: Option<DomainApp>)

  /** `new DomainAppFeature()`: mode None, no tenant yet. */
  function NewFeature(): (f: DomainAppFeature)
    ensures f.generateMode == GenerateMode.None && f.domainApp.None?
  {
    DomainAppFeature(GenerateMode.None, Option.None)
  }

  /** CompareMetadata: every pair of host metadata ranks equal. */
  function CompareMetadata(x: Option<string>, y: Option<string>): (r: int)
    ensures r == 0
  {
    0
  }

  /**
   * The comparer is a valid (trivial) ordering: reflexive, antisymmetric in sign and
   * transitive, so ties are left to the matcher's own ordering.
   */
  lemma CompareMetadataIsTotalPreorder(x: Option<string>, y: Option<string>, z: Option<string>)
    ensures CompareMetadata(x, x) == 0
    ensures CompareMetadata(x, y) == -CompareMetadata(y, x)
    ensures CompareMetadata(x, y) <= 0 && CompareMetadata(y, z) <= 0 ==> CompareMetadata(x, z) <= 0
  {
  }
}
