/** The agc-state coordination server (server.js): the per-role tables of
    joined sockets, the resize timeouts that debounce topology broadcasts,
    the startup gate for workers, the cluster-state snapshots and the retry
    decision of a remote invocation. Each handler runs to completion on one
    event loop, so each is one method over the server's state. */
module StateServer {
  import opened Base
  import opened Semver
  import opened Handshake
  import opened Instances

  /** The settings the server reads from its environment. */
  datatype Config = Config(
    packageVersion: string,
    authKey: Option<string>,
    forwardedForHeader: Option<string>,
    retryDelay: int,
    scaleOutDelay: int,
    scaleBackDelay: int,
    startupDelay: int)

  /** The callback a resize timeout runs when it fires. A worker join's
      callback remembers the joining socket, which it does not notify. */
  datatype Broadcast =
    | BrokerJoinBroadcast
    | BrokerLeaveBroadcast
    | WorkerJoinBroadcast(joiner: SocketId)
    | WorkerLeaveBroadcast

  /** A scheduled `setTimeout`: which callback, after which delay. */
  datatype PendingTimeout = PendingTimeout(callback: Broadcast, delay: int)

  /** The object the cluster-state builders return; a list is absent from
      the builder that does not produce it. */
  datatype ClusterState = ClusterState(
    agcWorkerURIs: Option<seq<string>>,
    agcBrokerURIs: Option<seq<string>>,
    time: int,
    agcSourceWorkerURI: Option<string>)

  /** "The server is waiting for initial broker connections". */
  datatype JoinError = WaitingForInitialBrokers

  /** One `socket.invoke(procedure, data)` of a broadcast. */
  datatype Invocation = Invocation(procedure: string, data: ClusterState)

  datatype InvokeOutcome = Acknowledged | Failed

  /** A rescheduled `invokeRPCOnInstance` call. */
  datatype Retry = Retry(procedure: string, data: ClusterState, delay: int)

  /** What one invocation of a delivery met: the reply and the target's
      transport state (`socket.state`) when the reply arrived. */
  datatype Attempt = Attempt(outcome: InvokeOutcome, socketState: string)

  /** The procedure each broadcast invokes on its recipients. */
  function ProcedureOf(b: Broadcast): (name: string)
    ensures b.BrokerJoinBroadcast? <==> name == "agcBrokerJoinCluster"
    ensures b.BrokerLeaveBroadcast? <==> name == "agcBrokerLeaveCluster"
    ensures b.WorkerJoinBroadcast? <==> name == "agcWorkerJoinCluster"
    ensures b.WorkerLeaveBroadcast? <==> name == "agcWorkerLeaveCluster"
  {
    match b
    case BrokerJoinBroadcast => "agcBrokerJoinCluster"
    case BrokerLeaveBroadcast => "agcBrokerLeaveCluster"
    case WorkerJoinBroadcast(_) => "agcWorkerJoinCluster"
    case WorkerLeaveBroadcast => "agcWorkerLeaveCluster"
  }

  /** The data `invokeRPCOnInstance` sends: the payload with
      `agcSourceWorkerURI` set to the target's own URI, everything else kept. */
  function TagWithTarget(data: ClusterState, target: Socket): (d: ClusterState)
    ensures d.agcSourceWorkerURI == Some(InstanceUri(target))
    ensures d.agcWorkerURIs == data.agcWorkerURIs && d.agcBrokerURIs == data.agcBrokerURIs
    ensures d.time == data.time
  {
    data.(agcSourceWorkerURI := Some(InstanceUri(target)))
  }

  /** The catch branch of `invokeRPCOnInstance`: a failed invocation is
      scheduled again, with the same procedure and data after the retry
      delay, exactly when the target socket is still open. */
  function RetryAfter(outcome: InvokeOutcome, socketState: string, procedure: string,
                      data: ClusterState, retryDelay: int): (r: Option<Retry>)
    ensures r.Some? <==> outcome == Failed && socketState == "open"
    ensures r.Some? ==> r.value == Retry(procedure, data, retryDelay)
  {
    if outcome == Failed && socketState == "open" then Some(Retry(procedure, data, retryDelay)) else None
  }

  /** How many invocations one delivery makes when its successive
      invocations meet `attempts` (counting only within that horizon). */
  function InvocationsMade(attempts: seq<Attempt>, procedure: string, data: ClusterState, retryDelay: int): (n: nat)
    ensures n <= |attempts|
    ensures |attempts| > 0 ==> n > 0
  {
    if |attempts| == 0 then 0
    else if RetryAfter(attempts[0].outcome, attempts[0].socketState, procedure, data, retryDelay).Some?
    then 1 + InvocationsMade(attempts[1..], procedure, data, retryDelay)
    else 1
  }

  /** A delivery whose first `k` invocations fail while the target stays
      open is retried each time: it makes more than `k` invocations. */
  lemma {:induction false} RetriedWhileOpen(attempts: seq<Attempt>, k: nat, procedure: string, data: ClusterState, retryDelay: int)
    requires k < |attempts|
    requires forall i :: 0 <= i < k ==> attempts[i] == Attempt(Failed, "open")
    ensures InvocationsMade(attempts, procedure, data, retryDelay) > k
  {
    if k > 0 {
      assert attempts[0] == Attempt(Failed, "open");
      RetriedWhileOpen(attempts[1..], k - 1, procedure, data, retryDelay);
    }
  }

  /** Once an invocation fails after the target has left the open state, the
      delivery makes no further invocation. */
  lemma {:induction false} AbandonedOnceClosed(attempts: seq<Attempt>, k: nat, procedure: string, data: ClusterState, retryDelay: int)
    requires k < |attempts|
    requires attempts[k].socketState != "open"
    ensures InvocationsMade(attempts, procedure, data, retryDelay) <= k + 1
  {
    if k > 0 && RetryAfter(attempts[0].outcome, attempts[0].socketState, procedure, data, retryDelay).Some? {
      AbandonedOnceClosed(attempts[1..], k - 1, procedure, data, retryDelay);
    }
  }

  /** A delivery ends at the first invocation that is acknowledged or that
      meets a target no longer open: after `k` failures while open, such an
      invocation is the last of exactly `k + 1`. */
  lemma {:induction false} DeliveryEndsAtFirstStop(attempts: seq<Attempt>, k: nat, procedure: string, data: ClusterState, retryDelay: int)
    requires k < |attempts|
    requires forall i :: 0 <= i < k ==> attempts[i] == Attempt(Failed, "open")
    requires attempts[k].outcome == Acknowledged || attempts[k].socketState != "open"
    ensures InvocationsMade(attempts, procedure, data, retryDelay) == k + 1
  {
    if k > 0 {
      assert attempts[0] == Attempt(Failed, "open");
      assert forall i :: 0 <= i < k - 1 ==> attempts[1..][i] == attempts[i + 1];
      DeliveryEndsAtFirstStop(attempts[1..], k - 1, procedure, data, retryDelay);
    }
  }

  class Server {
    const config: Config
    /** `requiredMajorSemver`, the major version of the server's own package. */
    const requiredMajor: Major
    /** Every connection that passed the application-level handshake, with
        the fields the handlers assigned to it. */
    var sockets: map<SocketId, Socket>
    /** `agcBrokerSockets` and `agcWorkerSockets`: the ids of the joined
        sockets of each role; the socket each id names is `sockets[id]`. */
    var agcBrokerSockets: set<SocketId>
    var agcWorkerSockets: set<SocketId>
    var serverReady: bool
    /** `brokerClusterResizeTimeout` and `workerClusterResizeTimeout`: the
        last timeout scheduled for each role. */
    var brokerResizeTimeout: Option<PendingTimeout>
    var workerResizeTimeout: Option<PendingTimeout>

    /** Every joined id names a connection. */
    ghost predicate Valid()
      reads this
    {
      agcBrokerSockets <= sockets.Keys && agcWorkerSockets <= sockets.Keys
    }

    /** Module start-up: empty tables, no timeouts, and workers admitted at
        once only when no startup delay is configured. */
    constructor (config: Config)
      ensures Valid()
      ensures this.config == config && requiredMajor == MajorSemver(Some(config.packageVersion))
      ensures sockets == map[] && agcBrokerSockets == {} && agcWorkerSockets == {}
      ensures serverReady == !(config.startupDelay > 0)
      ensures brokerResizeTimeout == None && workerResizeTimeout == None
    {
      this.config := config;
      requiredMajor := MajorSemver(Some(config.packageVersion));
      sockets := map[];
      agcBrokerSockets := {};
      agcWorkerSockets := {};
      serverReady := if config.startupDelay > 0 then false else true;
      brokerResizeTimeout := None;
      workerResizeTimeout := None;
    }

    /** The startup timeout firing: from now on workers may join. Nothing
        sets the flag back. */
    method StartupDelayElapsed()
      modifies this`serverReady
      ensures serverReady
    {
      serverReady := true;
    }

    /** The application-level handshake of connection `id`: the type and port
        from its query are stored on the socket whatever the outcome, then
        the version check decides. */
    method HandshakeAG(id: SocketId, remoteAddress: string, headers: map<string, string>,
                       query: map<string, string>) returns (d: Decision)
      requires Valid()
      modifies this`sockets
      ensures Valid()
      ensures sockets == old(sockets)[id := HandshakenSocket(remoteAddress, headers, query)]
      ensures d == CompatibilityDecision(requiredMajor, query)
    {
      sockets := sockets[id := HandshakenSocket(remoteAddress, headers, query)];
      d := CompatibilityDecision(requiredMajor, query);
    }

    /** The URIs of the sockets `ids`. */
    ghost function URIsOf(ids: set<SocketId>): set<string>
      reads this
      requires ids <= sockets.Keys
    {
      set id | id in ids :: InstanceUri(sockets[id])
    }

    /** `uris` lists every URI of the sockets `ids`, each once, and nothing else. */
    ghost predicate ListsExactly(uris: seq<string>, ids: set<SocketId>)
      reads this
      requires ids <= sockets.Keys
    {
      NoDuplicates(uris) && forall u :: u in uris <==> u in URIsOf(ids)
    }

    /** The `forEach` over a table that records each socket's URI in a lookup
        object, whose keys are then listed. */
    method CollectURIs(ids: set<SocketId>) returns (uris: seq<string>)
      requires ids <= sockets.Keys
      ensures ListsExactly(uris, ids)
    {
      uris := [];
      var remaining := ids;
      while remaining != {}
        invariant remaining <= ids
        invariant ListsExactly(uris, ids - remaining)
        decreases remaining
      {
        var id :| id in remaining;
        var uri := InstanceUri(sockets[id]);
        assert URIsOf(ids - (remaining - {id})) == URIsOf(ids - remaining) + {uri};
        if uri !in uris {
          uris := uris + [uri];
        }
        remaining := remaining - {id};
      }
    }

    /** `getAGCWorkerClusterState(time)`: the distinct worker URIs, stamped
        with `time`, or with the current time when none is given. */
    method GetAGCWorkerClusterState(time: Option<int>, now: int) returns (st: ClusterState)
      requires Valid()
      ensures st.agcWorkerURIs.Some? && ListsExactly(st.agcWorkerURIs.value, agcWorkerSockets)
      ensures st.agcBrokerURIs.None? && st.agcSourceWorkerURI.None?
      ensures st.time == if time.Some? then time.value else now
    {
      var uris := CollectURIs(agcWorkerSockets);
      st := ClusterState(Some(uris), None, if time.Some? then time.value else now, None);
    }

    /** `getAGCBrokerClusterState(time)`: the distinct broker URIs, stamped
        with `time`, or with the current time when none is given. */
    method GetAGCBrokerClusterState(time: Option<int>, now: int) returns (st: ClusterState)
      requires Valid()
      ensures st.agcBrokerURIs.Some? && ListsExactly(st.agcBrokerURIs.value, agcBrokerSockets)
      ensures st.agcWorkerURIs.None? && st.agcSourceWorkerURI.None?
      ensures st.time == if time.Some? then time.value else now
    {
      var uris := CollectURIs(agcBrokerSockets);
      st := ClusterState(None, Some(uris), if time.Some? then time.value else now, None);
    }

    /** `getAGCClusterState()`: both lists, stamped with one shared time. */
    method GetAGCClusterState(now: int) returns (st: ClusterState)
      requires Valid()
      ensures st.agcWorkerURIs.Some? && ListsExactly(st.agcWorkerURIs.value, agcWorkerSockets)
      ensures st.agcBrokerURIs.Some? && ListsExactly(st.agcBrokerURIs.value, agcBrokerSockets)
      ensures st.time == now && st.agcSourceWorkerURI.None?
    {
      var workers := GetAGCWorkerClusterState(Some(now), now);
      var brokers := GetAGCBrokerClusterState(Some(now), now);
      st := ClusterState(workers.agcWorkerURIs, brokers.agcBrokerURIs, now, None);
    }

    /** `setBrokerClusterScaleTimeout`: the pending broker timeout, if any,
        is cancelled and replaced by this one. */
    method SetBrokerClusterScaleTimeout(callback: Broadcast, delay: int)
      modifies this`brokerResizeTimeout
      ensures brokerResizeTimeout == Some(PendingTimeout(callback, delay))
    {
      brokerResizeTimeout := Some(PendingTimeout(callback, delay));
    }

    /** `setWorkerClusterScaleTimeout`: the pending worker timeout, if any,
        is cancelled and replaced by this one. */
    method SetWorkerClusterScaleTimeout(callback: Broadcast, delay: int)
      modifies this`workerResizeTimeout
      ensures workerResizeTimeout == Some(PendingTimeout(callback, delay))
    {
      workerResizeTimeout := Some(PendingTimeout(callback, delay));
    }

    /** `agcBrokerLeaveCluster`: only this socket leaves the broker table
        (a no-op when absent), and the broker broadcast is rescheduled with
        the scale-back delay. */
    method AgcBrokerLeaveCluster(id: SocketId)
      requires Valid()
      modifies this`agcBrokerSockets, this`brokerResizeTimeout
      ensures Valid()
      ensures agcBrokerSockets == old(agcBrokerSockets) - {id}
      ensures brokerResizeTimeout == Some(PendingTimeout(BrokerLeaveBroadcast, config.scaleBackDelay))
    {
      agcBrokerSockets := agcBrokerSockets - {id};
      SetBrokerClusterScaleTimeout(BrokerLeaveBroadcast, config.scaleBackDelay);
    }

    /** `agcWorkerLeaveCluster`: only this socket leaves the worker table
        (a no-op when absent), and the worker broadcast is rescheduled with
        the scale-back delay. */
    method AgcWorkerLeaveCluster(id: SocketId)
      requires Valid()
      modifies this`agcWorkerSockets, this`workerResizeTimeout
      ensures Valid()
      ensures agcWorkerSockets == old(agcWorkerSockets) - {id}
      ensures workerResizeTimeout == Some(PendingTimeout(WorkerLeaveBroadcast, config.scaleBackDelay))
    {
      agcWorkerSockets := agcWorkerSockets - {id};
      SetWorkerClusterScaleTimeout(WorkerLeaveBroadcast, config.scaleBackDelay);
    }

    /** The `agcBrokerJoinCluster` procedure: the join fields are stored on
        the socket, the socket enters the broker table and the broker
        broadcast is rescheduled with the scale-out delay. */
    method AgcBrokerJoinCluster(id: SocketId, data: Option<JoinData>)
      requires Valid() && id in sockets
      modifies this`sockets, this`agcBrokerSockets, this`brokerResizeTimeout
      ensures Valid()
      ensures sockets == old(sockets)[id := RecordJoin(config.forwardedForHeader, old(sockets)[id], JoinDataOrEmpty(data), true)]
      ensures agcBrokerSockets == old(agcBrokerSockets) + {id}
      ensures brokerResizeTimeout == Some(PendingTimeout(BrokerJoinBroadcast, config.scaleOutDelay))
    {
      var d := JoinDataOrEmpty(data);
      sockets := sockets[id := RecordJoin(config.forwardedForHeader, sockets[id], d, true)];
      agcBrokerSockets := agcBrokerSockets + {id};
      SetBrokerClusterScaleTimeout(BrokerJoinBroadcast, config.scaleOutDelay);
    }

    /** The `agcWorkerJoinCluster` procedure. The join fields are stored on
        the socket in every case. Before the server is ready the call fails
        and neither the worker table nor the worker timeout changes; after,
        the socket enters the worker table, the worker broadcast (which skips
        this socket) is rescheduled with the scale-out delay, and the reply is
        the whole cluster state tagged with the joiner's own URI, which its
        worker list contains. */
    method AgcWorkerJoinCluster(id: SocketId, data: Option<JoinData>, now: int)
      returns (reply: Result<ClusterState, JoinError>)
      requires Valid() && id in sockets
      modifies this`sockets, this`agcWorkerSockets, this`workerResizeTimeout
      ensures Valid()
      ensures sockets == old(sockets)[id := RecordJoin(config.forwardedForHeader, old(sockets)[id], JoinDataOrEmpty(data), false)]
      ensures !serverReady ==>
        reply == Failure(WaitingForInitialBrokers)
        && agcWorkerSockets == old(agcWorkerSockets) && workerResizeTimeout == old(workerResizeTimeout)
      ensures serverReady ==>
        && agcWorkerSockets == old(agcWorkerSockets) + {id}
        && workerResizeTimeout == Some(PendingTimeout(WorkerJoinBroadcast(id), config.scaleOutDelay))
        && reply.Success?
        && reply.value.agcWorkerURIs.Some? && ListsExactly(reply.value.agcWorkerURIs.value, agcWorkerSockets)
        && reply.value.agcBrokerURIs.Some? && ListsExactly(reply.value.agcBrokerURIs.value, agcBrokerSockets)
        && reply.value.time == now
        && reply.value.agcSourceWorkerURI == Some(InstanceUri(sockets[id]))
        && InstanceUri(sockets[id]) in reply.value.agcWorkerURIs.value
    {
      var d := JoinDataOrEmpty(data);
      sockets := sockets[id := RecordJoin(config.forwardedForHeader, sockets[id], d, false)];
      if !serverReady {
        reply := Failure(WaitingForInitialBrokers);
        return;
      }
      agcWorkerSockets := agcWorkerSockets + {id};
      SetWorkerClusterScaleTimeout(WorkerJoinBroadcast(id), config.scaleOutDelay);
      var clusterState := GetAGCClusterState(now);
      assert InstanceUri(sockets[id]) in URIsOf(agcWorkerSockets);
      reply := Success(clusterState.(agcSourceWorkerURI := Some(InstanceUri(sockets[id]))));
    }

    /** The `disconnect` listener: the table is chosen by the type the
        handshake reported, not by which join the socket made; any other
        type changes nothing. */
    method Disconnect(id: SocketId)
      requires Valid() && id in sockets
      modifies this`agcBrokerSockets, this`agcWorkerSockets, this`brokerResizeTimeout, this`workerResizeTimeout
      ensures Valid()
      ensures sockets[id].instanceType == Some("agc-broker") ==>
        agcBrokerSockets == old(agcBrokerSockets) - {id}
        && brokerResizeTimeout == Some(PendingTimeout(BrokerLeaveBroadcast, config.scaleBackDelay))
        && agcWorkerSockets == old(agcWorkerSockets) && workerResizeTimeout == old(workerResizeTimeout)
      ensures sockets[id].instanceType == Some("agc-worker") ==>
        agcWorkerSockets == old(agcWorkerSockets) - {id}
        && workerResizeTimeout == Some(PendingTimeout(WorkerLeaveBroadcast, config.scaleBackDelay))
        && agcBrokerSockets == old(agcBrokerSockets) && brokerResizeTimeout == old(brokerResizeTimeout)
      ensures sockets[id].instanceType != Some("agc-broker") && sockets[id].instanceType != Some("agc-worker") ==>
        agcBrokerSockets == old(agcBrokerSockets) && brokerResizeTimeout == old(brokerResizeTimeout)
        && agcWorkerSockets == old(agcWorkerSockets) && workerResizeTimeout == old(workerResizeTimeout)
    {
      if sockets[id].instanceType == Some("agc-broker") {
        AgcBrokerLeaveCluster(id);
      } else if sockets[id].instanceType == Some("agc-worker") {
        AgcWorkerLeaveCluster(id);
      }
    }

    /** What a resize callback does when it fires on the current state: it
        takes a fresh snapshot of the changed role and invokes the role's
        procedure on every worker (the joiner excepted after a worker join),
        each invocation tagged with its target's URI. */
    method BroadcastPlan(callback: Broadcast, now: int) returns (invocations: map<SocketId, Invocation>)
      requires Valid()
      ensures invocations.Keys ==
        if callback.WorkerJoinBroadcast? then agcWorkerSockets - {callback.joiner} else agcWorkerSockets
      ensures forall t :: t in invocations ==>
        invocations[t].procedure == ProcedureOf(callback)
        && invocations[t].data.time == now
        && invocations[t].data.agcSourceWorkerURI == Some(InstanceUri(sockets[t]))
      ensures callback.BrokerJoinBroadcast? || callback.BrokerLeaveBroadcast? ==>
        forall t :: t in invocations ==>
          invocations[t].data.agcWorkerURIs.None? && invocations[t].data.agcBrokerURIs.Some?
          && ListsExactly(invocations[t].data.agcBrokerURIs.value, agcBrokerSockets)
      ensures callback.WorkerJoinBroadcast? || callback.WorkerLeaveBroadcast? ==>
        forall t :: t in invocations ==>
          invocations[t].data.agcBrokerURIs.None? && invocations[t].data.agcWorkerURIs.Some?
          && ListsExactly(invocations[t].data.agcWorkerURIs.value, agcWorkerSockets)
    {
      var snapshot;
      if callback.BrokerJoinBroadcast? || callback.BrokerLeaveBroadcast? {
        snapshot := GetAGCBrokerClusterState(None, now);
      } else {
        snapshot := GetAGCWorkerClusterState(None, now);
      }
      var targets := if callback.WorkerJoinBroadcast? then agcWorkerSockets - {callback.joiner} else agcWorkerSockets;
      invocations := map t | t in targets :: Invocation(ProcedureOf(callback), TagWithTarget(snapshot, sockets[t]));
    }
  }

  /** Two rapid broker joins and then a leave inside one debounce window:
      only one broadcast stays scheduled, the leave's, and it will snapshot
      the final membership. */
  method RapidJoinsThenLeave(server: Server, a: SocketId, b: SocketId)
    requires server.Valid() && a in server.sockets && b in server.sockets
    modifies server`sockets, server`agcBrokerSockets, server`brokerResizeTimeout
    ensures server.Valid()
    ensures server.sockets.Keys == old(server.sockets).Keys
    ensures forall x :: x in old(server.sockets) && x != a && x != b ==> server.sockets[x] == old(server.sockets)[x]
    ensures a != b ==>
      server.sockets[a] == RecordJoin(server.config.forwardedForHeader, old(server.sockets)[a], JoinDataOrEmpty(None), true)
      && server.sockets[b] == RecordJoin(server.config.forwardedForHeader, old(server.sockets)[b], JoinDataOrEmpty(None), true)
    ensures server.agcWorkerSockets == old(server.agcWorkerSockets)
    ensures server.workerResizeTimeout == old(server.workerResizeTimeout)
    ensures server.brokerResizeTimeout == Some(PendingTimeout(BrokerLeaveBroadcast, server.config.scaleBackDelay))
    ensures server.agcBrokerSockets == old(server.agcBrokerSockets) + {a, b} - {a}
    ensures server.serverReady == old(server.serverReady)
  {
    server.AgcBrokerJoinCluster(a, None);
    server.AgcBrokerJoinCluster(b, None);
    server.AgcBrokerLeaveCluster(a);
  }
}
