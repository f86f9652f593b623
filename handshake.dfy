/** The handshake middleware of the agc-state server: the auth-key check on
    the WebSocket handshake and the protocol major-version check on the
    application-level handshake. */
module Handshake {
  import opened Base
  import opened Semver

  /** The errors a handshake is blocked with; each carries the version its
      upgrade instruction names. */
  datatype HandshakeError =
    | BadClusterAuth
      /** "An obsolete AGC component ... update the AGC component up to ^required" */
    | ObsoleteComponent(requiredMajor: Major)
      /** "The agc-state ... is incompatible ... update the agc-state up to ^reported" */
    | StateOutdated(reportedMajor: nat)
      /** "The <instanceType>@<version> ... update the <instanceType> up to ^required" */
    | CallerOutdated(instanceType: string, requiredMajor: Major)

  datatype Decision = Allow | Block(error: HandshakeError)

  /** The two handshake actions the middleware stream delivers, each with the
      query arguments of its request URL. */
  datatype HandshakeAction =
    | HandshakeWS(query: map<string, string>)
    | HandshakeAG(query: map<string, string>)

  /** The auth check of a WebSocket handshake: blocked exactly when a key is
      configured and the `authKey` query argument is missing or differs. */
  function AuthDecision(authKey: Option<string>, query: map<string, string>): (d: Decision)
    ensures d == Allow || d == Block(BadClusterAuth)
    ensures d.Block? <==> TruthyString(authKey) && ("authKey" !in query || query["authKey"] != authKey.value)
  {
    if TruthyString(authKey) && Get(query, "authKey") != authKey then Block(BadClusterAuth)
    else Allow
  }

  /** The version check of an application-level handshake against the
      service's own major version. */
  function CompatibilityDecision(requiredMajor: Major, query: map<string, string>): (d: Decision)
    ensures var reported := MajorSemver(Get(query, "version"));
      (d == Allow <==> SameMajor(reported, requiredMajor))
      && (d.Block? && d.error.ObsoleteComponent? <==>
            !SameMajor(reported, requiredMajor)
            && (!TruthyString(Get(query, "instanceType")) || reported == NaN))
      && (d.Block? && d.error.StateOutdated? <==>
            TruthyString(Get(query, "instanceType")) && GreaterMajor(reported, requiredMajor))
      && (d.Block? && d.error.CallerOutdated? <==>
            TruthyString(Get(query, "instanceType")) && reported.Num?
            && !SameMajor(reported, requiredMajor) && !GreaterMajor(reported, requiredMajor))
      && (d.Block? ==> !d.error.BadClusterAuth?)
    ensures d.Block? && d.error.ObsoleteComponent? ==> d.error.requiredMajor == requiredMajor
    ensures d.Block? && d.error.StateOutdated? ==>
      var reported := MajorSemver(Get(query, "version"));
      reported.Num? && d.error.reportedMajor == reported.n
    ensures d.Block? && d.error.CallerOutdated? ==>
      Get(query, "instanceType").Some?
      && d.error.instanceType == Get(query, "instanceType").value && d.error.requiredMajor == requiredMajor
  {
    var instanceType := Get(query, "instanceType");
    var reported := MajorSemver(Get(query, "version"));
    var obsolete := !TruthyString(instanceType) || reported == NaN;
    if SameMajor(reported, requiredMajor) then Allow
    else if obsolete then Block(ObsoleteComponent(requiredMajor))
    else if GreaterMajor(reported, requiredMajor) then Block(StateOutdated(reported.n))
    else Block(CallerOutdated(instanceType.value, requiredMajor))
  }

  /** The whole middleware: a WebSocket handshake only passes the auth check,
      an application-level handshake only the version check. */
  function HandshakeDecision(authKey: Option<string>, requiredMajor: Major, action: HandshakeAction): (d: Decision)
    ensures action.HandshakeWS? ==> d == AuthDecision(authKey, action.query)
    ensures action.HandshakeAG? ==> d == CompatibilityDecision(requiredMajor, action.query)
  {
    match action
    case HandshakeWS(query) => AuthDecision(authKey, query)
    case HandshakeAG(query) => CompatibilityDecision(requiredMajor, query)
  }

  /** The version alone decides: a caller that omits `instanceType` but
      reports the required major is let in. */
  lemma MissingInstanceTypeWithMatchingMajorIsAllowed(required: nat, query: map<string, string>)
    requires "instanceType" !in query
    requires MajorSemver(Get(query, "version")) == Num(required)
    ensures CompatibilityDecision(Num(required), query) == Allow
  {
  }

  /** A caller reporting the service's own major version (2.4.1 against
      major 2) is let in. */
  lemma SameMajorIsAllowed()
    ensures CompatibilityDecision(Num(2), map["version" := "2.4.1", "instanceType" := "agc-worker"]) == Allow
  {
    var q := map["version" := "2.4.1", "instanceType" := "agc-worker"];
    assert Get(q, "version") == Some("2.4.1");
    MajorSemverExamples();
  }

  /** A caller newer than the service (3.0.0 against major 2) is told to
      update the agc-state service. */
  lemma NewerCallerBlocksAsStateOutdated()
    ensures CompatibilityDecision(Num(2), map["version" := "3.0.0", "instanceType" := "agc-worker"])
      == Block(StateOutdated(3))
  {
    var q := map["version" := "3.0.0", "instanceType" := "agc-worker"];
    assert Get(q, "version") == Some("3.0.0");
    assert Get(q, "instanceType") == Some("agc-worker");
    assert Decimal(3) == "3" && Decimal(0) == "0";
    MajorOfRenderedVersion(3, 0, 0, "");
    assert RenderedVersion(3, 0, 0, "") == "3.0.0";
  }

  /** A caller older than the service (1.9.0 against major 2) is told to
      update itself. */
  lemma OlderCallerBlocksAsCallerOutdated()
    ensures CompatibilityDecision(Num(2), map["version" := "1.9.0", "instanceType" := "agc-worker"])
      == Block(CallerOutdated("agc-worker", Num(2)))
  {
    var q := map["version" := "1.9.0", "instanceType" := "agc-worker"];
    assert Get(q, "version") == Some("1.9.0");
    assert Get(q, "instanceType") == Some("agc-worker");
    assert Decimal(1) == "1" && Decimal(9) == "9" && Decimal(0) == "0";
    MajorOfRenderedVersion(1, 9, 0, "");
    assert RenderedVersion(1, 9, 0, "") == "1.9.0";
  }

  /** A version that does not start with its major ("v2.4.1") marks the
      caller as an obsolete component. */
  lemma UnparsableVersionBlocksAsObsolete()
    ensures CompatibilityDecision(Num(2), map["version" := "v2.4.1", "instanceType" := "agc-worker"])
      == Block(ObsoleteComponent(Num(2)))
  {
    var q := map["version" := "v2.4.1", "instanceType" := "agc-worker"];
    assert Get(q, "version") == Some("v2.4.1");
    MajorSemverIsNumber(Some("v2.4.1"));
  }
}
