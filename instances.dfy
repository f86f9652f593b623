/** What the agc-state server keeps on each connection (the fields its
    handlers assign to the transport socket), how it resolves an instance's
    address (`getRemoteIp`) and how it renders the URI peers use to reach
    the instance (`getInstanceURI`). */
module Instances {
  import opened Base

  /** The payload of a `*JoinCluster` procedure call; `instanceSecure` is
      kept as its truthiness. */
  datatype JoinData = JoinData(
    instanceId: Option<string>,
    instanceIp: Option<string>,
    instanceIpFamily: Option<string>,
    instanceSecure: bool)

  /** `req.data || {}`: a call without data behaves as one with no fields. */
  function JoinDataOrEmpty(data: Option<JoinData>): (d: JoinData)
    ensures data.Some? ==> d == data.value
    ensures data.None? ==> d.instanceId.None? && d.instanceIp.None? && d.instanceIpFamily.None? && !d.instanceSecure
  {
    if data.Some? then data.value else JoinData(None, None, None, false)
  }

  /** A connection: what the transport reports (`remoteAddress`, the request
      headers), what the application-level handshake stored
      (`instanceType`, `instancePort`) and what the last join stored. */
  datatype Socket = Socket(
    remoteAddress: string,
    headers: map<string, string>,
    instanceType: Option<string>,
    instancePort: Option<string>,
    instanceId: Option<string>,
    instanceIp: Option<string>,
    instanceIpFamily: Option<string>,
    instanceSecure: bool)

  /** A connection just past its application-level handshake: the type and
      port come from the query, no join has happened yet. */
  function HandshakenSocket(remoteAddress: string, headers: map<string, string>, query: map<string, string>): (s: Socket)
    ensures s.remoteAddress == remoteAddress && s.headers == headers
    ensures s.instanceType == Get(query, "instanceType") && s.instancePort == Get(query, "instancePort")
    ensures s.instanceId.None? && s.instanceIp.None? && s.instanceIpFamily.None? && !s.instanceSecure
  {
    Socket(remoteAddress, headers, Get(query, "instanceType"), Get(query, "instancePort"), None, None, None, false)
  }

  /** The forwarded address: `None` when no forwarding header is configured,
      otherwise the first comma-separated field of that header's value (the
      empty string when the header is absent). */
  function ForwardedAddress(forwardedForHeader: Option<string>, headers: map<string, string>): (f: Option<string>)
    ensures f.Some? <==> TruthyString(forwardedForHeader)
    ensures f.Some? && forwardedForHeader.value !in headers ==> f.value == ""
    ensures f.Some? && forwardedForHeader.value in headers ==>
      var v := headers[forwardedForHeader.value];
      f.value <= v && ',' !in f.value && (|f.value| < |v| ==> v[|f.value|] == ',')
  {
    if TruthyString(forwardedForHeader) then
      var v := if forwardedForHeader.value in headers then headers[forwardedForHeader.value] else "";
      Some(FirstField(v, ','))
    else None
  }

  /** `getRemoteIp`: the address a joining instance is recorded under. */
  function RemoteIp(forwardedForHeader: Option<string>, socket: Socket, data: JoinData): (ip: string)
    ensures TruthyString(data.instanceIp) ==> ip == data.instanceIp.value
    ensures !TruthyString(data.instanceIp) && TruthyString(ForwardedAddress(forwardedForHeader, socket.headers)) ==>
      ip == ForwardedAddress(forwardedForHeader, socket.headers).value
    ensures !TruthyString(data.instanceIp) && !TruthyString(ForwardedAddress(forwardedForHeader, socket.headers)) ==>
      ip == socket.remoteAddress
  {
    var forwarded := ForwardedAddress(forwardedForHeader, socket.headers);
    if TruthyString(data.instanceIp) then data.instanceIp.value
    else if TruthyString(forwarded) then forwarded.value
    else socket.remoteAddress
  }

  /** The socket fields a join assigns. Both joins record the id and the
      resolved address, and take the address family only together with an
      explicit address; only a broker join records `instanceSecure`. The port
      always stays the one the handshake reported. */
  function RecordJoin(forwardedForHeader: Option<string>, socket: Socket, data: JoinData, isBroker: bool): (s: Socket)
    ensures s.instanceId == data.instanceId
    ensures s.instanceIp == Some(RemoteIp(forwardedForHeader, socket, data))
    ensures s.instanceIpFamily == if TruthyString(data.instanceIp) then data.instanceIpFamily else socket.instanceIpFamily
    ensures s.instanceSecure == if isBroker then data.instanceSecure else socket.instanceSecure
    ensures s.instancePort == socket.instancePort && s.instanceType == socket.instanceType
    ensures s.remoteAddress == socket.remoteAddress && s.headers == socket.headers
  {
    socket.(
      instanceId := data.instanceId,
      instanceIp := Some(RemoteIp(forwardedForHeader, socket, data)),
      instanceIpFamily := if TruthyString(data.instanceIp) then data.instanceIpFamily else socket.instanceIpFamily,
      instanceSecure := if isBroker then data.instanceSecure else socket.instanceSecure)
  }

  function Scheme(secure: bool): string
  {
    if secure then "wss" else "ws"
  }

  /** The host part of the URI: bare for an IPv4 address, in brackets for
      anything else (an unknown family included). */
  function Host(socket: Socket): string
  {
    if socket.instanceIpFamily == Some("IPv4") then Show(socket.instanceIp)
    else "[" + Show(socket.instanceIp) + "]"
  }

  /** `getInstanceURI`: the scheme says whether the instance is secure, an
      address of a family other than IPv4 is bracketed, and the URI ends
      with the handshake's port. */
  function InstanceUri(socket: Socket): (uri: string)
    ensures socket.instanceSecure ==> "wss://" <= uri
    ensures !socket.instanceSecure ==> "ws://" <= uri && !("wss://" <= uri)
    ensures socket.instanceIpFamily != Some("IPv4") ==>
      |Scheme(socket.instanceSecure)| + 3 < |uri| && uri[|Scheme(socket.instanceSecure)| + 3] == '['
    ensures var tail := ":" + Show(socket.instancePort);
      |tail| <= |uri| && uri[|uri| - |tail|..] == tail
    ensures var start, tail := |Scheme(socket.instanceSecure)| + 3, ":" + Show(socket.instancePort);
      start <= |uri| - |tail|
      && uri[start..|uri| - |tail|] ==
         if socket.instanceIpFamily == Some("IPv4") then Show(socket.instanceIp)
         else "[" + Show(socket.instanceIp) + "]"
  {
    var prefix := Scheme(socket.instanceSecure) + "://";
    var tail := ":" + Show(socket.instancePort);
    var uri := prefix + Host(socket) + tail;
    assert uri[..|prefix|] == prefix;
    assert uri[|uri| - |tail|..] == tail;
    assert socket.instanceIpFamily != Some("IPv4") ==> uri[|prefix|] == Host(socket)[0] == '[';
    assert uri[2] == prefix[2];
    assert uri[|prefix|..|uri| - |tail|] == Host(socket);
    uri
  }

  /** Two instances that share scheme, family kind, address and port render
      the same URI, so a snapshot lists them once. */
  lemma SameEndpointSameUri(a: Socket, b: Socket)
    requires a.instanceSecure == b.instanceSecure
    requires (a.instanceIpFamily == Some("IPv4")) == (b.instanceIpFamily == Some("IPv4"))
    requires a.instanceIp == b.instanceIp && a.instancePort == b.instancePort
    ensures InstanceUri(a) == InstanceUri(b)
  {
  }

  /** An explicit IPv4 address is rendered bare. */
  lemma Ipv4UriExample(headers: map<string, string>)
    ensures InstanceUri(Socket("10.0.0.5", headers, Some("agc-broker"), Some("8000"),
                               None, Some("127.0.0.1"), Some("IPv4"), false)) == "ws://127.0.0.1:8000"
  {
    var v4 := Socket("10.0.0.5", headers, Some("agc-broker"), Some("8000"), None, Some("127.0.0.1"), Some("IPv4"), false);
    assert Host(v4) == "127.0.0.1";
    assert ":" + Show(v4.instancePort) == ":8000";
  }

  /** An address without the IPv4 family is rendered in brackets. */
  lemma BracketedUriExample(headers: map<string, string>)
    ensures InstanceUri(Socket("10.0.0.5", headers, Some("agc-broker"), Some("8000"),
                               None, Some("::1"), None, false)) == "ws://[::1]:8000"
  {
    var v6 := Socket("10.0.0.5", headers, Some("agc-broker"), Some("8000"), None, Some("::1"), None, false);
    assert Host(v6) == "[::1]";
    assert ":" + Show(v6.instancePort) == ":8000";
  }
}
