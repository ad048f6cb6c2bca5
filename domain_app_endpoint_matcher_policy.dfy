/**
 * DomainAppEndpointMatcherPolicy: the routing policy that drops, from the candidate
 * endpoints of a request, every tenant endpoint whose host metadata rejects the request.
 */
module DomainAppEndpointMatcherPolicy {
  import opened Wrappers
  import opened EndpointPointMatcherMetadata
  import DomainEndpointComparer

  /** The policy runs at order 0 among matcher policies. */
  const Order: int := 0

  /**
   * The policy's comparer, applied to the host metadata of two endpoints (None when an
   * endpoint carries none): it is DomainEndpointComparer, so every pair ranks equal.
   */
  function Compare(x: Option<MatcherMetadata>, y: Option<MatcherMetadata>): (r: int)
    ensures r == 0
  {
    DomainEndpointComparer.CompareMetadata(HostOf(x), HostOf(y))
  }

  function HostOf(m: Option<MatcherMetadata>): Option<string> {
    if m.Some? then m.value.host else None
  }

  /**
   * AppliesToEndpoints over the host metadata of each endpoint of a node (None when the
   * endpoint has none): true when the node has dynamic endpoints, else when some
   * endpoint carries host metadata.
   */
  function AppliesToEndpoints(metadata: seq<Option<MatcherMetadata>>, containsDynamicEndpoints: bool): (r: bool)
    ensures r <==> containsDynamicEndpoints || exists i :: 0 <= i < |metadata| && metadata[i].Some?
  {
    if containsDynamicEndpoints then true else AnyHasMetadata(metadata)
  }

  /** `endpoints.Any(e => metadata != null)`. */
  function AnyHasMetadata(metadata: seq<Option<MatcherMetadata>>): (r: bool)
    ensures r <==> exists i :: 0 <= i < |metadata| && metadata[i].Some?
  {
    if metadata == [] then false
    else if metadata[0].Some? then true
    else
      var r := AnyHasMetadata(metadata[1..]);
      assert forall i :: 1 <= i < |metadata| ==> metadata[i] == metadata[1..][i - 1];
      r
  }

  /** Whether a metadata accepts a request with the given host (a failed test accepts nothing). */
  predicate Accepts(m: MatcherMetadata, requestHost: Option<string>) {
    IsValidForCurrentContext(m, requestHost) == Success(true)
  }

  /**
   * The validity flags after the policy ran without error: a candidate stays valid when
   * it was valid and either has no host metadata or its metadata accepts the request.
   */
  function Filtered(metadata: seq<Option<MatcherMetadata>>, validity: seq<bool>, requestHost: Option<string>): (r: seq<bool>)
    requires |validity| == |metadata|
    ensures |r| == |validity|
  {
    seq(|validity|, i requires 0 <= i < |validity| =>
      validity[i] && (metadata[i].None? || Accepts(metadata[i].value, requestHost)))
  }

  /**
   * The routing CandidateSet: the candidates' endpoints (seen through their host
   * metadata) are fixed; their validity flags are a buffer the policy updates in place.
   */
  class CandidateSet {
    const metadata: seq<Option<MatcherMetadata>>
    const validity: array<bool>

    predicate Valid()
      reads this
    {
      validity.Length == |metadata|
    }

    constructor (metadata: seq<Option<MatcherMetadata>>, validity: seq<bool>)
      requires |validity| == |metadata|
      ensures Valid() && this.metadata == metadata && this.validity[..] == validity
      ensures fresh(this.validity)
    {
      this.metadata := metadata;
      this.validity := new bool[|validity|](i requires 0 <= i < |validity| => validity[i]);
    }

    function Count(): (n: nat)
      reads this
      ensures n == |metadata|
    {
      |metadata|
    }

    function IsValidCandidate(i: nat): bool
      requires Valid() && i < Count()
      reads this, validity
    {
      validity[i]
    }

    method SetValidity(i: nat, value: bool)
      requires Valid() && i < Count()
      modifies validity
      ensures validity[..] == old(validity[..])[i := value]
    {
      validity[i] := value;
    }
  }

  /**
   * ApplyAsync: walks the candidates in order and marks invalid every valid candidate
   * whose host metadata rejects the request. A request without a host value makes the
   * metadata test fail at the first valid candidate carrying metadata; before that no
   * flag has been changed.
   */
  method ApplyAsync(requestHost: Option<string>, candidates: CandidateSet) returns (r: Result<()>)
    requires candidates.Valid()
    modifies candidates.validity
    ensures r.Failure? <==>
      requestHost.None? && (exists i :: 0 <= i < candidates.Count() && old(candidates.validity[i]) && candidates.metadata[i].Some?)
    ensures r.Failure? ==> candidates.validity[..] == old(candidates.validity[..])
    ensures r.Success? ==> candidates.validity[..] == Filtered(candidates.metadata, old(candidates.validity[..]), requestHost)
  {
    var metadata := candidates.metadata;
    ghost var before := candidates.validity[..];
    ghost var after := Filtered(metadata, before, requestHost);
    var i := 0;
    while i < candidates.Count()
      invariant 0 <= i <= candidates.Count()
      invariant forall j :: 0 <= j < i ==> candidates.validity[j] == after[j]
      invariant forall j :: i <= j < candidates.Count() ==> candidates.validity[j] == before[j]
      invariant requestHost.None? ==> candidates.validity[..] == before
      invariant requestHost.None? ==> forall j :: 0 <= j < i ==> !(before[j] && metadata[j].Some?)
    {
      if !candidates.IsValidCandidate(i) {
        i := i + 1;
        continue;
      }
      if metadata[i].None? {
        i := i + 1;
        continue;
      }
      var matched := IsValidForCurrentContext(metadata[i].value, requestHost);
      if matched.Failure? {
        return Failure(matched.error);
      }
      if !matched.value {
        candidates.SetValidity(i, false);
      }
      i := i + 1;
    }
    r := Success(());
  }

  // ---------------------------------------------------------------------------
  // Properties of the filter

  /** The policy never revalidates: a flag can only go from true to false. */
  lemma FilterOnlyClears(metadata: seq<Option<MatcherMetadata>>, validity: seq<bool>, requestHost: Option<string>, i: int)
    requires |validity| == |metadata| && 0 <= i < |validity|
    ensures Filtered(metadata, validity, requestHost)[i] ==> validity[i]
    ensures metadata[i].None? ==> Filtered(metadata, validity, requestHost)[i] == validity[i]
  {
  }

  /**
   * A candidate with host metadata stays valid exactly when it was valid and the
   * request host is non-empty and equal (ordinally) to the metadata host.
   */
  lemma FilterKeepsExactlyTheTenantsCandidates(metadata: seq<Option<MatcherMetadata>>, validity: seq<bool>,
                                               requestHost: Option<string>, i: int)
    requires |validity| == |metadata| && 0 <= i < |validity| && metadata[i].Some?
    ensures Filtered(metadata, validity, requestHost)[i]
        <==> validity[i] && requestHost.Some? && requestHost.value != "" && metadata[i].value.host == requestHost
  {
    var r := IsValidForCurrentContext(metadata[i].value, requestHost);
    if requestHost.Some? {
      assert r.Success?;
    }
  }

  /** Running the policy twice leaves the same flags as running it once. */
  lemma FilterIsIdempotent(metadata: seq<Option<MatcherMetadata>>, validity: seq<bool>, requestHost: Option<string>)
    requires |validity| == |metadata|
    ensures Filtered(metadata, Filtered(metadata, validity, requestHost), requestHost) == Filtered(metadata, validity, requestHost)
  {
  }

  /**
   * Of two tenants' endpoints for the same pattern, a request with one tenant's host
   * keeps that tenant's endpoint only.
   */
  lemma TwoTenantsAreSeparated(hostA: string, hostB: string)
    requires hostA != "" && hostA != hostB
    ensures Filtered([Some(MatcherMetadata(Some(hostA))), Some(MatcherMetadata(Some(hostB)))], [true, true], Some(hostA))
      == [true, false]
  {
    FilterKeepsExactlyTheTenantsCandidates([Some(MatcherMetadata(Some(hostA))), Some(MatcherMetadata(Some(hostB)))],
                                           [true, true], Some(hostA), 0);
    FilterKeepsExactlyTheTenantsCandidates([Some(MatcherMetadata(Some(hostA))), Some(MatcherMetadata(Some(hostB)))],
                                           [true, true], Some(hostA), 1);
  }
}
