/** The older generation of the coordinator (index.js): servers and clients
    register under the `instanceId` they supply, clients report a state, and
    every state report is followed by a convergence check whose success is
    broadcast to all clients. */
module LegacyServer {
  import opened Base

  /** The JavaScript values a client can report as its state. */
  datatype JsValue = Undefined | Null | Bool(b: bool) | Number(n: int) | Str(s: string)

  predicate Truthy(v: JsValue)
  {
    match v
    case Undefined => false
    case Null => false
    case Bool(b) => b
    case Number(n) => n != 0
    case Str(s) => s != ""
  }

  /** The `data` argument of a handler, as far as the handlers read it. */
  datatype Message = Message(instanceId: Option<string>, state: JsValue)

  /** The property key `data && data.instanceId` turns into: a missing
      payload or id becomes the key "undefined". */
  function InstanceKey(data: Option<Message>): (key: string)
    ensures data.Some? && data.value.instanceId.Some? ==> key == data.value.instanceId.value
    ensures data.None? || data.value.instanceId.None? ==> key == "undefined"
  {
    if data.Some? && data.value.instanceId.Some? then data.value.instanceId.value else "undefined"
  }

  datatype ServerRecord = ServerRecord(socket: SocketId)

  datatype ClientRecord = ClientRecord(socket: SocketId, state: JsValue)

  datatype Payload = ClusterAddServer(data: Option<Message>) | StatesConverge(state: JsValue)

  /** One `socket.emit(event, payload)`. */
  datatype Emission = Emission(socket: SocketId, event: string, payload: Payload)

  /** `clientSetState` for an unknown id throws before changing anything. */
  datatype HandlerError = UnknownInstance

  /** The states of `records`, in the same order. */
  function StatesOf(records: seq<ClientRecord>): (states: seq<JsValue>)
    ensures |states| == |records|
    ensures forall i :: 0 <= i < |records| ==> states[i] == records[i].state
  {
    if records == [] then [] else [records[0].state] + StatesOf(records[1..])
  }

  /** The comparison the convergence loop makes: a falsy previous state is
      never compared. */
  predicate Compatible(previous: JsValue, current: JsValue)
  {
    !Truthy(previous) || previous == current
  }

  /** The condition `checkClientStatesConvergence` decides: no state follows
      a truthy state different from it. */
  predicate NoTruthyMismatch(states: seq<JsValue>)
  {
    forall i :: 0 < i < |states| ==> Compatible(states[i - 1], states[i])
  }

  /** An independent reading of the same condition: some falsy states, then
      one value that every later state repeats. */
  ghost predicate FalsyPrefixThenConstant(states: seq<JsValue>)
  {
    exists k :: 0 <= k <= |states|
      && (forall j :: 0 <= j < k ==> !Truthy(states[j]))
      && (forall j :: k <= j < |states| ==> states[j] == states[k])
  }

  /** `checkClientStatesConvergence` over the records in iteration order. A
      mismatch clears the result and leaves the previous state where it was. */
  method CheckClientStatesConvergence(instances: seq<ClientRecord>) returns (allStatesEqual: bool)
    ensures allStatesEqual == NoTruthyMismatch(StatesOf(instances))
    ensures instances == [] ==> allStatesEqual
  {
    ghost var states := StatesOf(instances);
    var prevInstanceState := Null;
    allStatesEqual := true;
    var i := 0;
    while i < |instances|
      invariant 0 <= i <= |instances|
      invariant allStatesEqual <==> forall j :: 0 < j < i ==> Compatible(states[j - 1], states[j])
      invariant allStatesEqual ==> prevInstanceState == if i == 0 then Null else states[i - 1]
    {
      var state := instances[i].state;
      if Truthy(prevInstanceState) && prevInstanceState != state {
        allStatesEqual := false;
      } else {
        prevInstanceState := state;
      }
      i := i + 1;
    }
  }

  /** After a run of falsy states, a truthy state is repeated to the end. */
  lemma {:induction false} TruthyStateHeld(states: seq<JsValue>, k: nat, j: nat)
    requires NoTruthyMismatch(states)
    requires k <= j < |states| && Truthy(states[k])
    ensures states[j] == states[k]
    decreases j - k
  {
    if j > k {
      TruthyStateHeld(states, k, j - 1);
      assert Compatible(states[j - 1], states[j]);
    }
  }

  /** The index of the first truthy state, or the length when there is none. */
  function FirstTruthy(states: seq<JsValue>): (k: nat)
    ensures k <= |states|
    ensures forall j :: 0 <= j < k ==> !Truthy(states[j])
    ensures k < |states| ==> Truthy(states[k])
  {
    if states == [] then 0
    else if Truthy(states[0]) then 0
    else 1 + FirstTruthy(states[1..])
  }

  /** The convergence condition in both readings. */
  lemma ConvergenceIsFalsyPrefixThenConstant(states: seq<JsValue>)
    ensures NoTruthyMismatch(states) <==> FalsyPrefixThenConstant(states)
  {
    if NoTruthyMismatch(states) {
      var k := FirstTruthy(states);
      forall j | k <= j < |states| ensures states[j] == states[k] {
        TruthyStateHeld(states, k, j);
      }
      assert FalsyPrefixThenConstant(states);
    }
    if FalsyPrefixThenConstant(states) {
      var k :| 0 <= k <= |states|
        && (forall j :: 0 <= j < k ==> !Truthy(states[j]))
        && (forall j :: k <= j < |states| ==> states[j] == states[k]);
      forall i | 0 < i < |states| ensures Compatible(states[i - 1], states[i]) {
        if i - 1 >= k {
          assert states[i - 1] == states[k] == states[i];
        }
      }
    }
  }

  /** Identical states converge, the empty table included. */
  lemma {:induction false} EqualStatesConverge(states: seq<JsValue>)
    requires forall i, j :: 0 <= i < |states| && 0 <= j < |states| ==> states[i] == states[j]
    ensures NoTruthyMismatch(states)
  {
    forall i | 0 < i < |states| ensures Compatible(states[i - 1], states[i]) {
      assert states[i - 1] == states[i];
    }
  }

  /** Once every client has reported a truthy state, convergence means that
      all states are equal. */
  lemma TruthyConvergedStatesAreEqual(states: seq<JsValue>)
    requires forall i :: 0 <= i < |states| ==> Truthy(states[i])
    ensures NoTruthyMismatch(states) <==>
      forall i, j :: 0 <= i < |states| && 0 <= j < |states| ==> states[i] == states[j]
  {
    if NoTruthyMismatch(states) && |states| > 0 {
      forall j | 0 <= j < |states| ensures states[j] == states[0] {
        TruthyStateHeld(states, 0, j);
      }
    }
    if forall i, j :: 0 <= i < |states| && 0 <= j < |states| ==> states[i] == states[j] {
      EqualStatesConverge(states);
    }
  }

  /** The order of the records matters: an unset state before a reported
      one converges, the reverse does not; [a, b, a] does not converge. */
  lemma ConvergenceExamples(a: string, b: string)
    requires a != "" && b != "" && a != b
    ensures NoTruthyMismatch([Undefined, Str(a)])
    ensures !NoTruthyMismatch([Str(a), Undefined])
    ensures NoTruthyMismatch([Str(a), Str(a), Str(a)])
    ensures !NoTruthyMismatch([Str(a), Str(b), Str(a)])
  {
    assert !Compatible([Str(a), Undefined][0], [Str(a), Undefined][1]);
    assert !Compatible([Str(a), Str(b), Str(a)][0], [Str(a), Str(b), Str(a)][1]);
  }

  /** The keys of `order` without `key`, the others in their order. */
  function Without(order: seq<string>, key: string): (r: seq<string>)
    ensures forall k :: k in r <==> k in order && k != key
    ensures NoDuplicates(order) ==> NoDuplicates(r)
    ensures key !in order ==> r == order
  {
    if order == [] then []
    else if order[0] == key then Without(order[1..], key)
    else
      var rest := Without(order[1..], key);
      assert NoDuplicates(order) ==> order[0] !in order[1..] && NoDuplicates(order[1..]);
      [order[0]] + rest
  }

  /** Keys before the first occurrence of `key` are kept as they are. */
  lemma {:induction false} WithoutAfterPrefix(front: seq<string>, back: seq<string>, key: string)
    requires key !in front
    ensures Without(front + back, key) == front + Without(back, key)
  {
    if front != [] {
      var whole := front + back;
      assert whole[0] == front[0] && whole[0] != key;
      assert whole[1..] == front[1..] + back;
      assert key !in front[1..];
      WithoutAfterPrefix(front[1..], back, key);
      assert Without(whole, key) == [front[0]] + (front[1..] + Without(back, key));
      assert front == [front[0]] + front[1..];
    } else {
      assert front + back == back;
    }
  }

  /** A key that occurs once is absent from what precedes and follows it. */
  lemma OccursOnce(order: seq<string>, i: nat)
    requires NoDuplicates(order) && i < |order|
    ensures order[i] !in order[..i] && order[i] !in order[i + 1..]
  {
    var front, back := order[..i], order[i + 1..];
    forall j | 0 <= j < |front| ensures front[j] != order[i] {
      assert front[j] == order[j];
    }
    forall j | 0 <= j < |back| ensures back[j] != order[i] {
      assert back[j] == order[i + 1 + j];
    }
  }

  lemma WithoutSplit(front: seq<string>, key: string, back: seq<string>)
    requires key !in front && key !in back
    ensures Without(front + [key] + back, key) == front + back
  {
    var rest := [key] + back;
    assert front + [key] + back == front + rest;
    WithoutAfterPrefix(front, rest, key);
    assert rest[1..] == back;
  }

  /** Deleting a key that occurs once removes exactly that position: the
      other keys keep their order. */
  lemma WithoutKeepsOrder(order: seq<string>, i: nat)
    requires NoDuplicates(order) && i < |order|
    ensures Without(order, order[i]) == order[..i] + order[i + 1..]
  {
    OccursOnce(order, i);
    assert order == order[..i] + [order[i]] + order[i + 1..];
    WithoutSplit(order[..i], order[i], order[i + 1..]);
  }

  /** The records of `table` under the keys `order`, in that order. */
  function RecordsInOrder(order: seq<string>, table: map<string, ClientRecord>): (records: seq<ClientRecord>)
    requires forall k :: k in order ==> k in table
    ensures |records| == |order|
    ensures forall i :: 0 <= i < |order| ==> records[i] == table[order[i]]
  {
    if order == [] then [] else [table[order[0]]] + RecordsInOrder(order[1..], table)
  }

  class LegacyStateServer {
    var serverInstances: map<string, ServerRecord>
    var clientInstances: map<string, ClientRecord>
    /** The keys of `clientInstances` in insertion order, the order in which
        lodash's `forEach` visits them. */
    var clientOrder: seq<string>

    ghost predicate Valid()
      reads this
    {
      NoDuplicates(clientOrder) && forall k :: k in clientOrder <==> k in clientInstances
    }

    /** The client records in iteration order. */
    function ClientRecords(): (records: seq<ClientRecord>)
      reads this
      requires Valid()
      ensures |records| == |clientOrder|
      ensures forall i :: 0 <= i < |clientOrder| ==> records[i] == clientInstances[clientOrder[i]]
    {
      RecordsInOrder(clientOrder, clientInstances)
    }

    constructor ()
      ensures Valid()
      ensures serverInstances == map[] && clientInstances == map[] && clientOrder == []
    {
      serverInstances := map[];
      clientInstances := map[];
      clientOrder := [];
    }

    /** `sendEventToAllInstances(clientInstances, event, payload)`: one
        emission to each client record's socket, in iteration order. */
    method SendEventToAllClients(event: string, payload: Payload) returns (sent: seq<Emission>)
      requires Valid()
      ensures |sent| == |clientOrder|
      ensures forall i :: 0 <= i < |sent| ==>
        sent[i] == Emission(clientInstances[clientOrder[i]].socket, event, payload)
    {
      sent := [];
      var i := 0;
      while i < |clientOrder|
        invariant 0 <= i <= |clientOrder|
        invariant |sent| == i
        invariant forall j :: 0 <= j < i ==>
          sent[j] == Emission(clientInstances[clientOrder[j]].socket, event, payload)
      {
        sent := sent + [Emission(clientInstances[clientOrder[i]].socket, event, payload)];
        i := i + 1;
      }
    }

    /** `serverJoinCluster`: a fresh record replaces whatever was under the
        key, and every client is told `clusterAddServer` with the join data. */
    method ServerJoinCluster(socket: SocketId, data: Option<Message>) returns (sent: seq<Emission>)
      requires Valid()
      modifies this`serverInstances
      ensures Valid()
      ensures serverInstances == old(serverInstances)[InstanceKey(data) := ServerRecord(socket)]
      ensures |sent| == |clientOrder|
      ensures forall i :: 0 <= i < |sent| ==>
        sent[i] == Emission(clientInstances[clientOrder[i]].socket, "clusterAddServer", ClusterAddServer(data))
    {
      serverInstances := serverInstances[InstanceKey(data) := ServerRecord(socket)];
      sent := SendEventToAllClients("clusterAddServer", ClusterAddServer(data));
    }

    /** `serverLeaveCluster`: only that key goes (a no-op when absent); no
        one is told. */
    method ServerLeaveCluster(data: Option<Message>)
      modifies this`serverInstances
      ensures serverInstances == old(serverInstances) - {InstanceKey(data)}
    {
      serverInstances := serverInstances - {InstanceKey(data)};
    }

    /** `clientJoinCluster`: a fresh record without a state replaces whatever
        was under the key (a re-joining client loses its state); a new key
        is visited last, a re-used key keeps its place. */
    method ClientJoinCluster(socket: SocketId, data: Option<Message>)
      requires Valid()
      modifies this`clientInstances, this`clientOrder
      ensures Valid()
      ensures clientInstances == old(clientInstances)[InstanceKey(data) := ClientRecord(socket, Undefined)]
      ensures clientOrder ==
        if InstanceKey(data) in old(clientInstances) then old(clientOrder) else old(clientOrder) + [InstanceKey(data)]
    {
      var key := InstanceKey(data);
      if key !in clientInstances {
        clientOrder := clientOrder + [key];
      }
      clientInstances := clientInstances[key := ClientRecord(socket, Undefined)];
    }

    /** `clientLeaveCluster`: only that key goes (a no-op when absent). */
    method ClientLeaveCluster(data: Option<Message>)
      requires Valid()
      modifies this`clientInstances, this`clientOrder
      ensures Valid()
      ensures clientInstances == old(clientInstances) - {InstanceKey(data)}
      ensures clientOrder == Without(old(clientOrder), InstanceKey(data))
    {
      var key := InstanceKey(data);
      clientInstances := clientInstances - {key};
      clientOrder := Without(clientOrder, key);
    }

    /** `clientSetState`. For an id that is not registered (or no payload)
        the handler throws and nothing changes. Otherwise only that record's
        state changes, and `clientStatesConverge` with the new state goes to
        every client exactly when the updated table converges. */
    method ClientSetState(data: Option<Message>) returns (outcome: Result<seq<Emission>, HandlerError>)
      requires Valid()
      modifies this`clientInstances
      ensures Valid()
      ensures data.None? || InstanceKey(data) !in old(clientInstances) ==>
        outcome == Failure(UnknownInstance) && clientInstances == old(clientInstances)
      ensures data.Some? && InstanceKey(data) in old(clientInstances) ==>
        var key := InstanceKey(data);
        clientInstances == old(clientInstances)[key := old(clientInstances)[key].(state := data.value.state)]
        && outcome.Success?
        && (NoTruthyMismatch(StatesOf(ClientRecords())) ==>
              |outcome.value| == |clientOrder|
              && forall i :: 0 <= i < |clientOrder| ==>
                   outcome.value[i] == Emission(clientInstances[clientOrder[i]].socket, "clientStatesConverge",
                                                StatesConverge(data.value.state)))
        && (!NoTruthyMismatch(StatesOf(ClientRecords())) ==> outcome.value == [])
    {
      if data.None? || InstanceKey(data) !in clientInstances {
        return Failure(UnknownInstance);
      }
      var key := InstanceKey(data);
      clientInstances := clientInstances[key := clientInstances[key].(state := data.value.state)];
      var clientStatesConverge := CheckClientStatesConvergence(ClientRecords());
      var sent := [];
      if clientStatesConverge {
        sent := SendEventToAllClients("clientStatesConverge", StatesConverge(data.value.state));
      }
      outcome := Success(sent);
    }
  }
}
