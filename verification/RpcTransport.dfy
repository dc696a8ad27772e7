// The two transports as objects: retries inside, re-authentication outside.
module RpcTransport {
  import opened Text
  import opened JsonRpc

  class JsonRpcWebSocketTransport {
    const network: Network
    const retryAttempts: nat
    var connection: Option<nat>
    var nextRequestId: nat
    var closed: bool
    var conns: nat
    var log: seq<Event>

    constructor (network: Network, retryAttempts: nat)
      ensures this.network == network && this.retryAttempts == retryAttempts && State() == START
    {
      this.network, this.retryAttempts := network, retryAttempts;
      connection, nextRequestId, closed, conns, log := None, 1, false, 0, [];
    }

    ghost function State(): Transport
      reads this
    {
      Transport(connection, nextRequestId, closed, conns, log)
    }

    method GetConnection() returns (failure: Option<Failure>)
      modifies this
      ensures (State(), failure) == Open(network, old(State()))
    {
      failure := None;
      if connection == None {
        failure := network.open(|log|);
        if failure.Some? {
          log := log + [OpenFailed];
        } else {
          log := log + [Opened(conns)];
          connection, conns := Some(conns), conns + 1;
        }
      }
    }

    method ResetConnection()
      modifies this
      ensures State() == Reset(old(State()))
    {
      if connection.Some? {
        log := log + [Closed(connection.value)];
        connection := None;
      }
    }

    // The receive loop: notifications and answers to other requests are skipped.
    method Await(conn: nat, id: nat, patience: nat) returns (outcome: Outcome)
      modifies this
      ensures (State(), outcome) == Receive(network, old(State()), conn, id, patience)
    {
      var left := patience;
      ghost var whole := Receive(network, State(), conn, id, patience);
      while left > 0
        invariant whole == Receive(network, State(), conn, id, left)
      {
        match network.recv(|log|)
        case Broken(failure) =>
          log := log + [Event.Lost(conn)];
          return Failed(failure);
        case Garbage =>
          log := log + [Unreadable(conn)];
          return ProtocolError;
        case Delivered(m) =>
          log := log + [Received(conn, m)];
          if m.id == Some(id) {
            return Reading(m);
          }
          left := left - 1;
      }
      outcome := Failed(Timeout);
    }

    method RequestOnce(id: nat, name: string) returns (outcome: Outcome)
      modifies this
      ensures (State(), outcome) == JsonRpc.RequestOnce(network, old(State()), id, name)
    {
      var failure := GetConnection();
      if failure.Some? {
        return Failed(failure.value);
      }
      var conn := connection.value;
      var broken := network.send(|log|);
      log := log + [Sent(conn, id, name)];
      if broken.Some? {
        return Failed(broken.value);
      }
      outcome := Await(conn, id, network.patience(|log|));
    }

    method Request(name: string, serializable: bool) returns (outcome: Outcome)
      modifies this
      ensures (State(), outcome) == JsonRpc.Request(network, old(State()), name, serializable, retryAttempts)
    {
      if closed {
        return Failed(ConnectionFailure);
      }
      var id := nextRequestId;
      nextRequestId := nextRequestId + 1;
      if !serializable {
        return ProtocolError;
      }
      ghost var whole := Attempts(network, State(), id, name, retryAttempts + 1);
      outcome := Failed(ConnectionFailure);
      for attempt := 0 to retryAttempts + 1
        invariant attempt <= retryAttempts ==>
                    whole == Attempts(network, State(), id, name, retryAttempts + 1 - attempt)
        invariant attempt == retryAttempts + 1 ==> whole == (State(), outcome)
      {
        outcome := RequestOnce(id, name);
        if !outcome.Failed? {
          return;
        }
        ResetConnection();
      }
    }

    method Close()
      modifies this
      ensures State() == Reset(old(State()).(closed := true))
    {
      closed := true;
      ResetConnection();
    }
  }

  class ApiKeyJsonRpcTransport {
    const transport: JsonRpcWebSocketTransport
    const authMethod: string
    const retryAttempts: nat

    constructor (transport: JsonRpcWebSocketTransport, authMethod: string, retryAttempts: nat)
      ensures this.transport == transport && this.authMethod == authMethod && this.retryAttempts == retryAttempts
    {
      this.transport, this.authMethod, this.retryAttempts := transport, authMethod, retryAttempts;
    }

    method AttemptOnce(name: string, serializable: bool) returns (outcome: Outcome)
      modifies transport
      ensures (transport.State(), outcome)
           == AuthOnce(transport.network, old(transport.State()), authMethod, name, serializable, transport.retryAttempts)
    {
      if name == authMethod {
        outcome := transport.Request(name, serializable);
        return;
      }
      outcome := transport.Request(authMethod, true);
      if !outcome.Returned? {
        return;
      }
      if outcome.value != True {
        return NotAuthenticated;
      }
      outcome := transport.Request(name, serializable);
    }

    method Request(name: string, serializable: bool) returns (outcome: Outcome)
      modifies transport
      ensures (transport.State(), outcome)
           == AuthRequest(transport.network, old(transport.State()), authMethod, name, serializable,
                          transport.retryAttempts, retryAttempts + 1)
    {
      ghost var whole := AuthRequest(transport.network, transport.State(), authMethod, name, serializable,
                                     transport.retryAttempts, retryAttempts + 1);
      outcome := Failed(ConnectionFailure);
      for attempt := 0 to retryAttempts + 1
        invariant attempt <= retryAttempts ==>
                    whole == AuthRequest(transport.network, transport.State(), authMethod, name, serializable,
                                         transport.retryAttempts, retryAttempts + 1 - attempt)
        invariant attempt == retryAttempts + 1 ==> whole == (transport.State(), outcome)
      {
        outcome := AttemptOnce(name, serializable);
        if !outcome.Failed? {
          return;
        }
      }
    }
  }
}
