# scc-state / agc-state coordinator, modelled in Dafny

This project models the core of a cluster-membership coordinator for a
publish/subscribe cluster. Message brokers and application workers connect to
it, announce their role and address, and receive topology snapshots. It covers
two generations of the service.

- **server.js (agc-state).** It has a handshake gate that checks an auth key
  and the caller's protocol major version. It keeps a broker table and a worker
  table keyed by the transport's socket id. It derives each instance's
  reachable URI and builds de-duplicated URI snapshots. It has one debounce
  timeout per role, shared by that role's joins and leaves. A startup gate
  holds workers back until brokers have had time to register. A failed remote
  invocation is retried while its target stays open.
- **index.js (the older generation).** Servers and clients register under the
  `instanceId` they supply. A re-join overwrites the old record. Clients
  report a state. After each report a convergence check runs, and when it
  holds every client is sent `clientStatesConverge`.

Files and modules:

- `base.dfy` (`Base`): option and result types, socket ids, JavaScript
  truthiness of strings, template rendering of absent values, and
  `split(sep)[0]`.
- `semver.dfy` (`Semver`): `getMajorSemver`. This covers the unanchored
  `\d+\.\d+\.\d+` test and `parseInt` of the text before the first dot.
- `handshake.dfy` (`Handshake`): the auth decision and the version
  compatibility decision of the handshake middleware.
- `instances.dfy` (`Instances`): the fields the handlers store on a socket,
  `getRemoteIp` and `getInstanceURI`.
- `state_server.dfy` (`StateServer`): class `Server`, which holds the socket
  tables, the two resize timeouts and the `serverReady` flag. Each handler is
  one method. The module also has the snapshot builders, the broadcast a
  timeout would run, and the retry decision.
- `legacy_server.dfy` (`LegacyServer`): class `LegacyStateServer` for index.js
  and `checkClientStatesConvergence`.

How the model is built:

- In server.js the tables hold the socket objects themselves. Later writes to
  a socket's fields therefore show through the tables. The model keeps the
  socket fields in `Server.sockets` and keeps only ids in the tables.
- In index.js, the model iterates keys in the order they were inserted. It
  keeps that order in `clientOrder`. JavaScript visits integer-like keys
  first, which the model does not do (see "## Left out").
- Time, the current clock value and the transport's socket state are
  parameters. A pending timeout is the value "which broadcast, after which
  delay".

Behaviour worth knowing:

- **Convergence.** Convergence is not equality of all states.
  The loop never compares against a falsy previous state, so `[unset, a]`
  converges but `[a, unset]` does not. `NoTruthyMismatch` states what the code
  decides. `TruthyConvergedStatesAreEqual` shows that it is equality once
  every client has reported a truthy state.
- **Source tag.** Pushed payloads are tagged with the *target's* own URI
  (`getInstanceURI(socket)` on the recipient), not the sender's.
- **Debounce slots.** There is one debounce slot per role, not one per role
  and direction. A leave replaces a pending join broadcast of the same role,
  and the reverse.
- **One table per socket.** The code does not keep a socket in only one role
  table. A socket may call both join procedures. Disconnect chooses the table
  by the `instanceType` the handshake reported, not by the join the socket
  made.
- **Worker join reply.** The reply to a worker join carries both URI lists,
  not only the broker list.

## Model

| member | source | states |
|---|---|---|
| `Base.FirstField` | server.js:188 | `split(',')[0]`: the result is a prefix of the input and holds no separator. The input either ends there or continues with the separator. |
| `Base.FirstFieldBeforeSeparator` | server.js:367 | The first field of `field + sep + rest` is `field` when `field` has no separator. This is how `semver.split('.')[0]` isolates the major. |
| `Semver.ParseLeadingInt` | server.js:368 | `parseInt` gives a number exactly when the text starts with a digit. The `0x` prefix is not modelled (see "## Left out"). |
| `Semver.ParseLeadingDigits` | server.js:368 | `parseInt` of a digit run followed by a non-digit or by nothing is the decimal value of that run. |
| `Semver.MatchesSemverRegex` | server.js:364 | `semver.match(semverRegex)`: at some position a run of digits is followed by `.`, a second run, `.` and a digit. Its meaning is stated by `Semver.MatchesSemverRegexIff`. |
| `Semver.MajorSemver` | server.js:363-372 | `getMajorSemver`: NaN for a missing version or one without a triple. Otherwise `parseInt` of the text before the first dot. Its properties are stated by the lemmas below. |
| `Semver.MatchesSemverRegexIff` | server.js:5 | The executable scan for `\d+\.\d+\.\d+` holds exactly when some substring is a MAJOR.MINOR.PATCH triple. The pattern is unanchored. |
| `Semver.MajorSemverIsNumber` | server.js:363-372 | `getMajorSemver` gives a number iff the argument is a string that contains a triple and starts with a digit. Otherwise it gives NaN (missing version, "v1.2.3"). A `0x` prefix is not modelled. |
| `Semver.MajorOfRenderedVersion` | server.js:363-372 | Round trip: rendering MAJOR.MINOR.PATCH followed by any suffix and parsing it back gives MAJOR. |
| `Semver.MajorSemverExamples` | server.js:363-372 | "2.4.1" gives 2 and "10.0.0" gives 10. |
| `Semver.MajorSemverNaNExamples` | server.js:363-372 | "v1.2.3" and a missing version give NaN. |
| `Handshake.AuthDecision` | server.js:206-217 | A WebSocket handshake is blocked with `BadClusterAuth` iff a key is configured and the `authKey` query argument is missing or different. Otherwise it is allowed. |
| `Handshake.CompatibilityDecision` | server.js:219-246 | Allowed iff the reported major equals the required one (NaN equals nothing). Otherwise "obsolete" iff `instanceType` is missing or the major is NaN. Otherwise "update agc-state" iff reported > required, else "update the caller". |
| `Handshake.HandshakeDecision` | server.js:204-248 | A WebSocket handshake gets only the auth check. An application-level handshake gets only the version check. |
| `Handshake.MissingInstanceTypeWithMatchingMajorIsAllowed` | server.js:227-230 | A caller without `instanceType` that reports the required major is allowed. |
| `Handshake.SameMajorIsAllowed` | server.js:227-230 | Version 2.4.1 against required major 2 is allowed. |
| `Handshake.NewerCallerBlocksAsStateOutdated` | server.js:234-235 | Version 3.0.0 against major 2 is blocked with "update the agc-state up to ^3". |
| `Handshake.OlderCallerBlocksAsCallerOutdated` | server.js:236-237 | Version 1.9.0 against major 2 is blocked with "update the agc-worker up to ^2". |
| `Handshake.UnparsableVersionBlocksAsObsolete` | server.js:228-233 | Version "v2.4.1" is blocked as an obsolete component. |
| `Instances.JoinDataOrEmpty` | server.js:255 | A join without data behaves as one with no fields. |
| `Instances.HandshakenSocket` | server.js:224-225 | The handshake stores `instanceType` and `instancePort` from the query. Nothing of a join is set yet. |
| `Instances.ForwardedAddress` | server.js:188 | Absent iff no forwarding header is configured. Otherwise it is the first comma-separated field of the header, and the empty string when the header is missing. |
| `Instances.RemoteIp` | server.js:187-190 | The result is a truthy `data.instanceIp` if there is one. Otherwise it is the forwarded address when that is non-empty. Otherwise it is the socket's `remoteAddress`. |
| `Instances.RecordJoin` | server.js:255-262 | A join stores the id and the resolved address. The family is overwritten only when `data.instanceIp` is truthy. Only a broker join stores `instanceSecure`. The port stays the handshake's. |
| `Instances.InstanceUri` | server.js:74-83 | The scheme is `wss` iff the instance is secure, else `ws`. Between `://` and the final `:port` is the address: bare iff the family is `IPv4`, otherwise in brackets. The URI ends with `:` and the handshake's port. |
| `Instances.SameEndpointSameUri` | server.js:86-91 | Instances with the same scheme, address kind, address and port get one URI, so a snapshot lists them once. |
| `Instances.Ipv4UriExample` | server.js:74-83 | An explicit IPv4 address renders as `ws://127.0.0.1:8000`. |
| `Instances.BracketedUriExample` | server.js:74-83 | An address without the IPv4 family renders as `ws://[::1]:8000`. |
| `StateServer.ProcedureOf` | server.js:145-308 | Each broadcast invokes its own procedure name: broker leave (line 145), worker leave (line 157), broker join (line 266) and worker join (line 308). |
| `StateServer.TagWithTarget` | server.js:166-169 | The data sent to a target gets `agcSourceWorkerURI` set to that target's URI. The lists and the time are kept. |
| `StateServer.RetryAfter` | server.js:170-177 | A failed invocation is rescheduled, with the same procedure and data after the retry delay, iff the target's state is `open`. |
| `StateServer.InvocationsMade` | server.js:166-178 | A delivery makes at least one and at most as many invocations as attempts it meets. |
| `StateServer.RetriedWhileOpen` | server.js:170-177 | After `k` failures with the target open, a delivery makes more than `k` invocations. |
| `StateServer.DeliveryEndsAtFirstStop` | server.js:170-177 | After `k` failures while open, an invocation that is acknowledged or meets a target no longer open is the last: the delivery makes exactly `k + 1` invocations. |
| `StateServer.AbandonedOnceClosed` | server.js:170-177 | Once an invocation meets a target that is no longer open, no further invocation follows. |
| `StateServer.Server.constructor` | server.js:63-72 | The tables start empty with no timeouts. `serverReady` starts as `!(startupDelay > 0)`. The required major is that of the package version. |
| `StateServer.Server.StartupDelayElapsed` | server.js:68-71 | The startup timeout sets `serverReady`. No method clears it. |
| `StateServer.Server.HandshakeAG` | server.js:219-246 | The socket's type and port are stored whatever the outcome. The decision is the compatibility decision. |
| `StateServer.Server.CollectURIs` | server.js:86-93 | The lookup-object loop lists every URI of the given sockets exactly once and nothing else. |
| `StateServer.Server.GetAGCWorkerClusterState` | server.js:85-96 | The distinct worker URIs, stamped with the given time, or with now when none is given. |
| `StateServer.Server.GetAGCBrokerClusterState` | server.js:98-109 | The distinct broker URIs, stamped with the given time, or with now when none is given. |
| `StateServer.Server.GetAGCClusterState` | server.js:111-120 | Both URI lists, stamped with one shared time. |
| `StateServer.Server.SetBrokerClusterScaleTimeout` | server.js:124-130 | Afterwards the broker slot holds exactly the callback and delay just passed. Any earlier one is cancelled. |
| `StateServer.Server.SetWorkerClusterScaleTimeout` | server.js:134-140 | Afterwards the worker slot holds exactly the callback and delay just passed. Any earlier one is cancelled. |
| `StateServer.Server.AgcBrokerLeaveCluster` | server.js:142-152 | Only this socket id leaves the broker table (a no-op when absent). The broker broadcast is rescheduled with the scale-back delay. |
| `StateServer.Server.AgcWorkerLeaveCluster` | server.js:154-164 | Only this socket id leaves the worker table (a no-op when absent). The worker broadcast is rescheduled with the scale-back delay. |
| `StateServer.Server.AgcBrokerJoinCluster` | server.js:254-271 | The join fields are stored and the socket enters the broker table. The shared broker slot gets the join broadcast with the scale-out delay. |
| `StateServer.Server.AgcWorkerJoinCluster` | server.js:281-316 | The socket fields are stored either way. When not ready, the call fails and the worker table and timeout are unchanged. When ready, the socket is inserted and the broadcast skipping it is scheduled. The reply lists both roles with time now, carries the joiner's URI as `agcSourceWorkerURI`, and its worker list contains that URI. |
| `StateServer.Server.Disconnect` | server.js:326-332 | `agc-broker` leaves the broker table and `agc-worker` leaves the worker table. Any other handshake type changes nothing. |
| `StateServer.Server.BroadcastPlan` | server.js:180-185 | A firing callback invokes its procedure on every worker (minus the joiner after a worker join). Each invocation carries a fresh snapshot of the changed role, tagged with the target's URI. |
| `StateServer.RapidJoinsThenLeave` | server.js:122-146 | Two broker joins then a leave leave one pending broadcast, the leave's. The broker table reflects the final membership. The worker table, the worker timeout and the set of sockets are unchanged, and only the broker fields are in the frame. Every socket record other than the two joiners' is unchanged. For two distinct joiners, each record is its broker join without data. |
| `LegacyServer.CheckClientStatesConvergence` | index.js:12-23 | The loop returns true exactly when no state follows a truthy, different state. It returns true on an empty table. |
| `LegacyServer.TruthyStateHeld` | index.js:15-21 | Under convergence, a truthy state is repeated by every later record. |
| `LegacyServer.ConvergenceIsFalsyPrefixThenConstant` | index.js:12-23 | Convergence iff the states are some falsy states followed by one value repeated to the end. |
| `LegacyServer.EqualStatesConverge` | index.js:12-23 | Identical states converge. |
| `LegacyServer.TruthyConvergedStatesAreEqual` | index.js:12-23 | When every state is truthy, convergence iff all states are equal. |
| `LegacyServer.ConvergenceExamples` | index.js:16-20 | `[unset, a]` converges. `[a, unset]` does not. `[a, a, a]` converges. `[a, b, a]` does not. |
| `LegacyServer.InstanceKey` | index.js:34 | `data && data.instanceId` as a property key: the id, or "undefined" when the payload or the id is missing. |
| `LegacyServer.Without` | index.js:51 | Deleting a key keeps exactly the other keys, without duplicates. |
| `LegacyServer.WithoutKeepsOrder` | index.js:51 | Deleting a key that occurs once removes just its position. The other keys keep their order. |
| `LegacyServer.LegacyStateServer.constructor` | index.js:9-10 | Both tables start empty. |
| `LegacyServer.LegacyStateServer.SendEventToAllClients` | index.js:26-30 | One emission per client record, in iteration order, to that record's socket. |
| `LegacyServer.LegacyStateServer.ServerJoinCluster` | index.js:33-39 | A fresh `{socket}` replaces the record under the id. Every client is sent `clusterAddServer` with the join data. |
| `LegacyServer.LegacyStateServer.ServerLeaveCluster` | index.js:40-43 | Only that id is deleted (a no-op when absent). Nothing is sent. |
| `LegacyServer.LegacyStateServer.ClientJoinCluster` | index.js:44-49 | A fresh record without a state replaces the one under the id. Other keys are unchanged. A new id is visited last. |
| `LegacyServer.LegacyStateServer.ClientLeaveCluster` | index.js:50-53 | Only that id is deleted (a no-op when absent). The new key order is `Without` of the old one, so by `LegacyServer.WithoutKeepsOrder` the other keys keep their order. |
| `LegacyServer.LegacyStateServer.ClientSetState` | index.js:54-61 | An unknown id fails and changes nothing. Otherwise only that record's state changes. `clientStatesConverge` with the new state goes to every client iff the updated table converges, and nothing is sent otherwise. |

## Left out

- The HTTP health-check responder, the `listen` calls and the listeners for
  transport errors and warnings are I/O plumbing.
- Logging has only side effects.
- Reading the environment is not modelled: `selectNumericArgument`, `Number()`
  coercions and `LOG_LEVEL`. The auth key, forwarding header, delays and
  package version are a given `Config`. The defaults are not modelled: port
  7777, retry 2000 ms, scale-out 5000 ms, scale-back 1000 ms, startup 5000 ms.
- Real timers are not modelled. Firing and `Date.now` are out. A timeout is
  the pending value in its slot, the current time is a parameter, and
  `BroadcastPlan` says what a callback would do on the current state.
- `socket.invoke` and `socket.emit` are modelled as returned `Invocation` and
  `Emission` values. The asynchronous suspension and the transport's
  acknowledgements are out. The retry chain is modelled only through
  `RetryAfter` and `InvocationsMade`.
- `url.parse` is not modelled. The query is a given map of strings.
  Repeated query keys, which become arrays, are not modelled.
- Join data fields are reduced to strings and truthiness. A non-string
  `instanceIp`, `instanceId` or `instanceIpFamily` is not modelled.
  `instanceSecure` is kept as its truthiness.
- In index.js a payload is either absent or an object. A `null` payload,
  which JavaScript files under the key "null", is not modelled.
- Header names are looked up exactly as configured. A header value that is an
  array is not modelled.
- The payload object shared by a fan-out and rewritten by each invocation
  is not modelled. Each invocation's tag is modelled on its own.
- The transport's own socket state and the removal of a disconnected socket
  from the transport are not modelled. `Server.sockets` keeps every socket
  that went through the application-level handshake, whatever its outcome.
- Semver.ParseLeadingInt: does not model parseInt's leading whitespace, sign
  or precision loss on very long digit runs, so " 2.0.0" and "-2.0.0" give NaN
  here while JavaScript gives 2 and -2. Nor does it model the `0x`/`0X` prefix,
  which JavaScript reads as hexadecimal. "0x2.0.0" has major 2 in JavaScript
  and is allowed against major 2, while the model gives 0 and blocks it.
  "0x.1.2.3" is NaN in JavaScript and 0 here. `Semver.MajorSemverIsNumber`
  and `Semver.ParseLeadingInt` hold for the model, not for such versions.
- StateServer.Server.CollectURIs: states the set of URIs and that none
  repeats, but not their order, which follows the JavaScript order of object
  keys.
- LegacyServer.CheckClientStatesConvergence: compares states with plain
  equality instead of JavaScript's loose `!=`, and takes the records in
  insertion order. JavaScript visits integer-like keys first.
- LegacyServer.LegacyStateServer.ClientSetState: a missing payload or an
  unknown id is returned as an error. In JavaScript the handler throws and
  never responds, except for the ids on the next line.
- LegacyServer.LegacyStateServer.ClientSetState, ClientJoinCluster and
  ServerJoinCluster: ids that name `Object.prototype` members (`__proto__`,
  `toString`, `constructor`, …) are not modelled. The tables are plain maps.
  In JavaScript, `clientSetState` with id "toString" writes to the inherited
  function and does not throw, so it may broadcast where the model fails. An
  id of "__proto__" sets the state on the prototype of every record, and a
  join under it replaces the prototype instead of adding a key.
- The handlers' `respond()` and `req.end()` acknowledgements carry nothing
  beyond what the methods return, and are not modelled separately.
