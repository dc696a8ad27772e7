// Which frames go out on which connection, and whose answer a request returns.
module RpcSafety {
  import opened Text
  import opened JsonRpc

  // ---- One request of the inner transport ----

  // The log grew, and no frame was sent meanwhile.
  ghost predicate NoFrames(before: seq<Event>, after: seq<Event>) {
    && before <= after
    && forall i | |before| <= i < |after| :: !after[i].Sent?
  }

  predicate Answers(e: Event, conn: nat, id: nat, value: Value) {
    e == Received(conn, Message(Some(id), true, Result(value)))
  }

  lemma {:induction false} ReceiveEffect(n: Network, t: Transport, conn: nat, id: nat, patience: nat)
    ensures var (u, outcome) := Receive(n, t, conn, id, patience);
            && NoFrames(t.log, u.log) && u == t.(log := u.log) && outcome != NotAuthenticated
            && (outcome.Returned? ==> |u.log| > |t.log| && Answers(u.log[|u.log| - 1], conn, id, outcome.value))
    decreases patience
  {
    if patience > 0 && n.recv(|t.log|).Delivered? {
      ReceiveEffect(n, Log(t, Received(conn, n.recv(|t.log|).message)), conn, id, patience - 1);
    }
  }

  // At most one frame was sent, at position `at`; on the connection that was open, if one was.
  ghost predicate OneFrame(before: Transport, after: Transport, id: nat, name: string, at: Option<nat>) {
    && before.log <= after.log && before.conns <= after.conns && after.closed == before.closed
    && (forall i | |before.log| <= i < |after.log| && after.log[i].Sent? :: at == Some(i))
    && (at.Some? ==>
          && |before.log| <= at.value < |after.log| && after.log[at.value].Sent?
          && after.log[at.value].id == id && after.log[at.value].name == name
          && (before.connection.Some? ==> at.value == |before.log| && after.log[at.value].conn == before.connection.value))
  }

  // A returned value came in last, as the answer to exactly the frame that was sent, on the connection still open.
  ghost predicate Correlated(before: Transport, after: Transport, id: nat, at: Option<nat>, value: Value) {
    && at.Some? && |before.log| <= at.value < |after.log| - 1 && after.log[at.value].Sent?
    && Answers(after.log[|after.log| - 1], after.log[at.value].conn, id, value)
    && after.connection == Some(after.log[at.value].conn)
  }

  lemma RequestOnceEffect(n: Network, t: Transport, id: nat, name: string) returns (at: Option<nat>)
    ensures var (u, outcome) := RequestOnce(n, t, id, name);
            && OneFrame(t, u, id, name, at) && u.nextId == t.nextId && outcome != NotAuthenticated
            && (outcome.Returned? ==> Correlated(t, u, id, at, outcome.value))
  {
    var (ready, failure) := Open(n, t);
    at := None;
    if failure == None {
      var conn := ready.connection.value;
      var sent := Log(ready, Sent(conn, id, name));
      at := Some(|ready.log|);
      ReceiveEffect(n, sent, conn, id, n.patience(|sent.log|));
    }
  }

  // With no retries of its own, the inner transport sends a request's frame at most once.
  lemma RequestEffect(n: Network, t: Transport, name: string, serializable: bool) returns (at: Option<nat>)
    ensures var (u, outcome) := Request(n, t, name, serializable, 0);
            && OneFrame(t, u, t.nextId, name, at) && t.nextId <= u.nextId <= t.nextId + 1
            && (at.Some? ==> u.nextId == t.nextId + 1) && outcome != NotAuthenticated
            && (outcome.Returned? ==> Correlated(t, u, t.nextId, at, outcome.value) && u.nextId == t.nextId + 1)
  {
    at := None;
    if !t.closed && serializable {
      var numbered := t.(nextId := t.nextId + 1);
      at := RequestOnceEffect(n, numbered, t.nextId, name);
    }
  }

  // ---- Sessions of authenticated requests ----

  // Frame i belongs to the authentication method, or follows at once on the answer that authenticated its
  // own attempt: same connection, previous id.
  ghost predicate Authenticated(auth: string, log: seq<Event>, i: nat)
    requires i < |log|
  {
    log[i].Sent? && log[i].name != auth ==>
      && i > 0 && log[i].id > 0 && Answers(log[i - 1], log[i].conn, log[i].id - 1, True)
      && Sent(log[i].conn, log[i].id - 1, auth) in log[..i]
  }

  ghost predicate AllAuthenticated(auth: string, log: seq<Event>) {
    forall i | 0 <= i < |log| :: Authenticated(auth, log, i)
  }

  // Request ids are never reused.
  ghost predicate IdsGrow(log: seq<Event>, nextId: nat) {
    && (forall i | 0 <= i < |log| && log[i].Sent? :: log[i].id < nextId)
    && forall i, j | 0 <= i < j < |log| && log[i].Sent? && log[j].Sent? :: log[i].id < log[j].id
  }

  ghost predicate SessionOk(auth: string, t: Transport) {
    AllAuthenticated(auth, t.log) && IdsGrow(t.log, t.nextId)
  }

  lemma PrefixAuthenticated(auth: string, before: seq<Event>, after: seq<Event>, i: nat)
    requires i < |before| && before <= after && Authenticated(auth, before, i)
    ensures Authenticated(auth, after, i)
  {
    assert after[..i] == before[..i];
  }

  // The log after one more frame, which itself is authenticated.
  lemma FrameKeeps(auth: string, t: Transport, u: Transport, name: string, at: Option<nat>)
    requires SessionOk(auth, t) && OneFrame(t, u, t.nextId, name, at) && t.nextId <= u.nextId
    requires at.Some? ==> u.nextId == t.nextId + 1 && Authenticated(auth, u.log, at.value)
    ensures SessionOk(auth, u)
  {
    forall i | 0 <= i < |u.log| ensures Authenticated(auth, u.log, i) {
      if i < |t.log| {
        PrefixAuthenticated(auth, t.log, u.log, i);
      }
    }
    forall i | 0 <= i < |t.log| ensures u.log[i] == t.log[i] {
    }
  }

  function Frames(log: seq<Event>, name: string): nat {
    if log == [] then 0
    else
      var last := log[|log| - 1];
      Frames(log[..|log| - 1], name) + if last.Sent? && last.name == name then 1 else 0
  }

  lemma {:induction false} FramesOfOne(before: seq<Event>, after: seq<Event>, name: string, at: Option<nat>)
    requires before <= after
    requires forall i | |before| <= i < |after| && after[i].Sent? :: at == Some(i)
    ensures Frames(after, name) <= Frames(before, name) + if at.Some? && |before| <= at.value < |after| then 1 else 0
    ensures at == None || (|before| <= at.value < |after| && after[at.value].Sent? && after[at.value].name != name) ==>
              Frames(after, name) == Frames(before, name)
    decreases |after|
  {
    if |before| == |after| {
      assert before == after;
    } else {
      FramesOfOne(before, after[..|after| - 1], name, if at == Some(|after| - 1) then None else at);
    }
  }

  lemma AuthOnceKeeps(n: Network, t: Transport, auth: string, name: string, serializable: bool)
    requires SessionOk(auth, t)
    ensures var (u, outcome) := AuthOnce(n, t, auth, name, serializable, 0);
            && SessionOk(auth, u) && t.log <= u.log && t.nextId <= u.nextId
            && Frames(u.log, name) <= Frames(t.log, name) + 1
            && (outcome.Returned? ==> Returns(t, u, name, outcome.value))
  {
    if name == auth {
      var at := RequestEffect(n, t, name, serializable);
      var u := Request(n, t, name, serializable, 0).0;
      FrameKeeps(auth, t, u, name, at);
      FramesOfOne(t.log, u.log, name, at);
    } else {
      var at := RequestEffect(n, t, auth, true);
      var (ready, outcome) := Request(n, t, auth, true, 0);
      FrameKeeps(auth, t, ready, auth, at);
      FramesOfOne(t.log, ready.log, name, at);
      if outcome == Returned(True) {
        MethodKeeps(n, t, ready, auth, name, serializable, at.value);
      }
    }
  }

  lemma MethodKeeps(n: Network, t: Transport, ready: Transport, auth: string, name: string, serializable: bool, at: nat)
    requires SessionOk(auth, ready) && name != auth && t.log <= ready.log && ready.nextId == t.nextId + 1
    requires Correlated(t, ready, t.nextId, Some(at), True) && OneFrame(t, ready, t.nextId, auth, Some(at))
    ensures var (u, outcome) := Request(n, ready, name, serializable, 0);
            && SessionOk(auth, u) && t.log <= u.log && t.nextId <= u.nextId
            && Frames(u.log, name) <= Frames(ready.log, name) + 1
            && (outcome.Returned? ==> Returns(t, u, name, outcome.value))
  {
    var frame := RequestEffect(n, ready, name, serializable);
    var (u, outcome) := Request(n, ready, name, serializable, 0);
    if frame.Some? {
      var i := frame.value;
      assert i == |ready.log| && u.log[i - 1] == ready.log[i - 1];
      assert u.log[..i] == ready.log && ready.log[at] in ready.log;
      assert ready.log[at] == Sent(u.log[i].conn, t.nextId, auth);
      assert Authenticated(auth, u.log, i);
    }
    FrameKeeps(auth, ready, u, name, frame);
    FramesOfOne(ready.log, u.log, name, frame);
    if outcome.Returned? {
      assert |t.log| <= frame.value;
    }
  }

  // The value returned is the answer to a frame of this very request: sent after the request began, under an
  // id no earlier frame had, and answered last on the same connection.
  ghost predicate Returns(t: Transport, u: Transport, name: string, value: Value) {
    exists i :: && |t.log| <= i < |u.log| - 1 && u.log[i].Sent? && u.log[i].name == name && u.log[i].id >= t.nextId
                && Answers(u.log[|u.log| - 1], u.log[i].conn, u.log[i].id, value)
  }

  lemma ReturnsEarlier(t: Transport, mid: Transport, u: Transport, name: string, value: Value)
    requires t.log <= mid.log && t.nextId <= mid.nextId && Returns(mid, u, name, value)
    ensures Returns(t, u, name, value)
  {
  }

  lemma {:induction false} AuthRequestKeeps(n: Network, t: Transport, auth: string, name: string, serializable: bool, left: nat)
    requires left > 0 && SessionOk(auth, t)
    ensures var (u, outcome) := AuthRequest(n, t, auth, name, serializable, 0, left);
            && SessionOk(auth, u) && t.log <= u.log && t.nextId <= u.nextId
            && Frames(u.log, name) <= Frames(t.log, name) + left
            && (outcome.Returned? ==> Returns(t, u, name, outcome.value))
    decreases left
  {
    AuthOnceKeeps(n, t, auth, name, serializable);
    var (done, outcome) := AuthOnce(n, t, auth, name, serializable, 0);
    if outcome.Failed? && left > 1 {
      AuthRequestKeeps(n, done, auth, name, serializable, left - 1);
      var (u, end) := AuthRequest(n, done, auth, name, serializable, 0, left - 1);
      if end.Returned? {
        ReturnsEarlier(t, done, u, name, end.value);
      }
    }
  }

  datatype Call = Call(name: string, serializable: bool)

  function Session(n: Network, t: Transport, auth: string, calls: seq<Call>, inner: nat, outer: nat): Transport {
    if calls == [] then t
    else
      var last := |calls| - 1;
      AuthRequest(n, Session(n, t, auth, calls[..last], inner, outer), auth, calls[last].name, calls[last].serializable,
                  inner, outer + 1).0
  }

  // A whole session, whatever the network does: every frame is authenticated on its own connection by its own
  // attempt, and request ids strictly increase.
  lemma {:induction false} SessionIsAuthenticated(n: Network, auth: string, calls: seq<Call>, outer: nat)
    ensures SessionOk(auth, Session(n, START, auth, calls, 0, outer))
  {
    if calls != [] {
      var last := |calls| - 1;
      SessionIsAuthenticated(n, auth, calls[..last], outer);
      AuthRequestKeeps(n, Session(n, START, auth, calls[..last], 0, outer), auth, calls[last].name,
                       calls[last].serializable, outer + 1);
    }
  }

  // One more request in a session: at most outer + 1 frames of its method, and only its own answer comes back.
  lemma NextCall(n: Network, auth: string, calls: seq<Call>, outer: nat, call: Call)
    ensures var t := Session(n, START, auth, calls, 0, outer);
            var (u, outcome) := AuthRequest(n, t, auth, call.name, call.serializable, 0, outer + 1);
            && Frames(u.log, call.name) <= Frames(t.log, call.name) + outer + 1
            && (outcome.Returned? ==> Returns(t, u, call.name, outcome.value))
            && forall i | 0 <= i < |t.log| && t.log[i].Sent? :: t.log[i].id < t.nextId
  {
    SessionIsAuthenticated(n, auth, calls, outer);
    AuthRequestKeeps(n, Session(n, START, auth, calls, 0, outer), auth, call.name, call.serializable, outer + 1);
  }

  // ---- Why the inner transport must not retry on its own ----

  lemma {:induction false} AttemptsGrow(n: Network, t: Transport, id: nat, name: string, left: nat)
    requires left > 0
    ensures RequestOnce(n, t, id, name).0.log <= Attempts(n, t, id, name, left).0.log
    ensures t.log <= Attempts(n, t, id, name, left).0.log
    decreases left
  {
    var at := RequestOnceEffect(n, t, id, name);
    var (done, outcome) := RequestOnce(n, t, id, name);
    if outcome.Failed? && left > 1 {
      AttemptsGrow(n, Reset(done), id, name, left - 1);
    }
  }

  lemma AuthOnceGrows(n: Network, t: Transport, auth: string, name: string, inner: nat)
    ensures t.log <= AuthOnce(n, t, auth, name, true, inner).0.log
  {
    if !t.closed {
      var first := if name == auth then name else auth;
      AttemptsGrow(n, t.(nextId := t.nextId + 1), t.nextId, first, inner + 1);
      var ready := Request(n, t, first, true, inner).0;
      AttemptsGrow(n, ready.(nextId := ready.nextId + 1), ready.nextId, name, inner + 1);
    }
  }

  lemma {:induction false} AuthRequestGrows(n: Network, t: Transport, auth: string, name: string, inner: nat, left: nat)
    requires left > 0
    ensures AuthOnce(n, t, auth, name, true, inner).0.log <= AuthRequest(n, t, auth, name, true, inner, left).0.log
    ensures t.log <= AuthRequest(n, t, auth, name, true, inner, left).0.log
    decreases left
  {
    AuthOnceGrows(n, t, auth, name, inner);
    var (done, outcome) := AuthOnce(n, t, auth, name, true, inner);
    if outcome.Failed? && left > 1 {
      AuthRequestGrows(n, done, auth, name, inner, left - 1);
    }
  }

  // Authentication succeeds, then the connection breaks under the request's own frame.
  const DROP := Network(_ => None, k => if k == 3 then Some(ConnectionFailure) else None,
                        k => if k == 2 then Delivered(Message(Some(1), true, Result(True))) else Broken(ConnectionFailure),
                        _ => 1)

  lemma DropAuthenticates(auth: string, inner: nat)
    ensures Request(DROP, START, auth, true, inner)
         == (Transport(Some(0), 2, false, 1, [Opened(0), Sent(0, 1, auth), Received(0, Message(Some(1), true, Result(True)))]),
             Returned(True))
  {
    var t := START.(nextId := 2);
    var connected := Log(t, Opened(0)).(connection := Some(0), conns := 1);
    assert Open(DROP, t) == (connected, None);
    var sent := Log(connected, Sent(0, 1, auth));
    var answer := Message(Some(1), true, Result(True));
    assert |sent.log| == 2 && DROP.recv(2) == Delivered(answer);
    assert Receive(DROP, sent, 0, 1, 1) == (Log(sent, Received(0, answer)), Returned(True));
    assert RequestOnce(DROP, t, 1, auth) == Receive(DROP, sent, 0, 1, 1);
    assert Log(sent, Received(0, answer)).log == [Opened(0), Sent(0, 1, auth), Received(0, answer)];
  }

  lemma DropResends(name: string, t: Transport, inner: nat)
    requires inner > 0 && t.connection == Some(0) && t.conns == 1 && |t.log| == 3 && !t.closed && t.nextId == 2
    ensures t.log + [Sent(0, 2, name), Closed(0), Opened(1), Sent(1, 2, name)] <= Request(DROP, t, name, true, inner).0.log
  {
    var numbered := t.(nextId := 3);
    var failed := Log(numbered, Sent(0, 2, name));
    assert RequestOnce(DROP, numbered, 2, name) == (failed, Failed(ConnectionFailure));
    var reset := Reset(failed);
    var again := RequestOnce(DROP, reset, 2, name).0;
    var sent := Log(Log(reset, Opened(1)).(connection := Some(1), conns := 2), Sent(1, 2, name));
    ReceiveEffect(DROP, sent, 1, 2, 1);
    assert sent.log <= again.log;
    AttemptsGrow(DROP, reset, 2, name, inner);
    assert sent.log == t.log + [Sent(0, 2, name), Closed(0), Opened(1), Sent(1, 2, name)];
  }

  lemma RetryLosesAuthentication(auth: string, name: string, inner: nat, outer: nat)
    requires name != auth && inner > 0
    ensures !AllAuthenticated(auth, AuthRequest(DROP, START, auth, name, true, inner, outer + 1).0.log)
  {
    DropAuthenticates(auth, inner);
    var ready := Request(DROP, START, auth, true, inner).0;
    DropResends(name, ready, inner);
    AuthRequestGrows(DROP, START, auth, name, inner, outer + 1);
    var log := AuthRequest(DROP, START, auth, name, true, inner, outer + 1).0.log;
    assert AuthOnce(DROP, START, auth, name, true, inner) == Request(DROP, ready, name, true, inner);
    assert log[6] == Sent(1, 2, name) && log[5] == Opened(1);
    assert !Authenticated(auth, log, 6);
  }

  ghost predicate SafeOn(n: Network, auth: string, name: string, inner: nat, outer: nat) {
    AllAuthenticated(auth, AuthRequest(n, START, auth, name, true, inner, outer + 1).0.log)
  }

  // Every frame is authenticated on its own connection, in every fault pattern, exactly when the inner
  // transport's retries are set to 0.
  lemma AuthenticatedExactly(auth: string, name: string, inner: nat, outer: nat)
    requires name != auth
    ensures (forall n :: SafeOn(n, auth, name, inner, outer)) <==> inner == 0
  {
    if inner == 0 {
      forall n ensures SafeOn(n, auth, name, inner, outer) {
        AuthRequestKeeps(n, START, auth, name, true, outer + 1);
      }
    } else {
      RetryLosesAuthentication(auth, name, inner, outer);
      assert !SafeOn(DROP, auth, name, inner, outer);
    }
  }
}
