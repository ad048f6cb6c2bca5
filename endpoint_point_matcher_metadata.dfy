/**
 * The host metadata every tenant endpoint carries, and the test the matcher policy
 * applies with it to a request.
 */
module EndpointPointMatcherMetadata {
  import opened Wrappers

  /** EndpointPointMatcherMetadata: the tenant host an endpoint serves (null allowed). */
  datatype MatcherMetadata = MatcherMetadata(host: Option<string>)

  /**
   * IsValidForCurrentContext. The request host is compared with the metadata host
   * ordinally, so casing matters. A request with no host value dereferences null and
   * fails.
   */
  function IsValidForCurrentContext(metadata: MatcherMetadata, requestHost: Option<string>): (r: Result<bool>)
    ensures r.Failure? <==> requestHost.None?
    ensures r.Success? ==> (r.value <==> requestHost.value != "" && metadata.host == requestHost)
  {
    match requestHost
    case None => Failure("Object reference not set to an instance of an object.")
    case Some(host) =>
      var valid := true;
      var valid := if host == "" then false else valid;
      var valid := if metadata.host != Some(host) then false else valid;
      Success(valid)
  }

  /** The test is case-sensitive: "A.example" does not serve "a.example". */
  lemma HostTestIsCaseSensitive()
    ensures IsValidForCurrentContext(MatcherMetadata(Some("A.example")), Some("a.example")) == Success(false)
    ensures IsValidForCurrentContext(MatcherMetadata(Some("a.example")), Some("a.example")) == Success(true)
  {
    assert "A.example" != "a.example" by { assert "A.example"[0] != "a.example"[0]; }
  }

  /** Neither an empty request host nor a metadata without host ever matches. */
  lemma EmptyOrMissingHostNeverMatches(metadata: MatcherMetadata, host: string)
    ensures IsValidForCurrentContext(metadata, Some("")) == Success(false)
    ensures IsValidForCurrentContext(MatcherMetadata(None), Some(host)) == Success(false)
  {
  }
}
