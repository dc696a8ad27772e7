// JSON-RPC over a connection that may fail at every step, and the authenticating layer above it.
module JsonRpc {
  import opened Text

  datatype Value = True | Other(value: int)

  datatype Body = Result(value: Value) | Error | BadError | Neither

  // A decoded message: the integer its id compares equal to, if there is one, whether it says "2.0", and the rest.
  datatype Message = Message(id: Option<int>, version2: bool, body: Body)

  datatype Failure = ConnectionFailure | Timeout

  datatype Incoming = Delivered(message: Message) | Garbage | Broken(failure: Failure)

  // Everything that happens on the wire, in order. A frame counts as sent even if the send then raises.
  datatype Event =
    | Opened(conn: nat)
    | OpenFailed
    | Sent(conn: nat, id: nat, name: string)
    | Received(conn: nat, message: Message)
    | Unreadable(conn: nat)
    | Lost(conn: nat)
    | Closed(conn: nat)

  // The network answers by position in the event log; patience is how many messages arrive before the
  // request's timer fires.
  datatype Network = Network(open: nat -> Option<Failure>, send: nat -> Option<Failure>, recv: nat -> Incoming,
                             patience: nat -> nat)

  // The transport's fields, and the record of connections and events beside them.
  datatype Transport = Transport(connection: Option<nat>, nextId: nat, closed: bool, conns: nat, log: seq<Event>)

  datatype Outcome = Returned(value: Value) | RemoteError | ProtocolError | Failed(failure: Failure) | NotAuthenticated

  const START := Transport(None, 1, false, 0, [])

  function Log(t: Transport, e: Event): Transport { t.(log := t.log + [e]) }

  function Open(n: Network, t: Transport): (r: (Transport, Option<Failure>))
    ensures r.1 == None ==> r.0.connection.Some?
  {
    if t.connection.Some? then (t, None)
    else
      var failure := n.open(|t.log|);
      if failure.Some? then (Log(t, OpenFailed), failure)
      else (Log(t, Opened(t.conns)).(connection := Some(t.conns), conns := t.conns + 1), None)
  }

  // What a correlated message means for its request.
  function Reading(m: Message): Outcome {
    if !m.version2 then ProtocolError
    else match m.body
      case BadError => ProtocolError
      case Error => RemoteError
      case Neither => ProtocolError
      case Result(value) => Returned(value)
  }

  function Receive(n: Network, t: Transport, conn: nat, id: nat, patience: nat): (Transport, Outcome)
    decreases patience
  {
    if patience == 0 then (t, Failed(Timeout))
    else match n.recv(|t.log|)
      case Broken(failure) => (Log(t, Lost(conn)), Failed(failure))
      case Garbage => (Log(t, Unreadable(conn)), ProtocolError)
      case Delivered(m) =>
        var got := Log(t, Received(conn, m));
        if m.id == Some(id) then (got, Reading(m)) else Receive(n, got, conn, id, patience - 1)
  }

  function RequestOnce(n: Network, t: Transport, id: nat, name: string): (Transport, Outcome) {
    var (ready, failure) := Open(n, t);
    if failure.Some? then (ready, Failed(failure.value))
    else
      var conn := ready.connection.value;
      var sent := Log(ready, Sent(conn, id, name));
      var broken := n.send(|ready.log|);
      if broken.Some? then (sent, Failed(broken.value))
      else Receive(n, sent, conn, id, n.patience(|sent.log|))
  }

  function Reset(t: Transport): Transport {
    if t.connection == None then t else Log(t, Closed(t.connection.value)).(connection := None)
  }

  function Attempts(n: Network, t: Transport, id: nat, name: string, left: nat): (Transport, Outcome)
    requires left > 0
    decreases left
  {
    var (done, outcome) := RequestOnce(n, t, id, name);
    if !outcome.Failed? then (done, outcome)
    else if left == 1 then (Reset(done), outcome)
    else Attempts(n, Reset(done), id, name, left - 1)
  }

  // JsonRpcWebSocketTransport.request
  function Request(n: Network, t: Transport, name: string, serializable: bool, retries: nat): (Transport, Outcome) {
    if t.closed then (t, Failed(ConnectionFailure))
    else
      var numbered := t.(nextId := t.nextId + 1);
      if !serializable then (numbered, ProtocolError)
      else Attempts(n, numbered, t.nextId, name, retries + 1)
  }

  // One attempt of the authenticating layer.
  function AuthOnce(n: Network, t: Transport, auth: string, name: string, serializable: bool, inner: nat)
    : (Transport, Outcome)
  {
    if name == auth then Request(n, t, name, serializable, inner)
    else
      var (ready, outcome) := Request(n, t, auth, true, inner);
      if !outcome.Returned? then (ready, outcome)
      else if outcome.value != True then (ready, NotAuthenticated)
      else Request(n, ready, name, serializable, inner)
  }

  // ApiKeyJsonRpcTransport.request
  function AuthRequest(n: Network, t: Transport, auth: string, name: string, serializable: bool, inner: nat, left: nat)
    : (Transport, Outcome)
    requires left > 0
    decreases left
  {
    var (done, outcome) := AuthOnce(n, t, auth, name, serializable, inner);
    if !outcome.Failed? || left == 1 then (done, outcome)
    else AuthRequest(n, done, auth, name, serializable, inner, left - 1)
  }
}
