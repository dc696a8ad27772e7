// When a request tries again, and what it answers in the end.
module RpcProgress {
  import opened Text
  import opened JsonRpc
  import opened RpcSafety

  // ---- one receive loop ----

  // A message under another id, or none: a notification or somebody else's answer.
  predicate Foreign(e: Event, id: nat) {
    e.Received? && e.message.id != Some(id)
  }

  // What a message under the request's own id answers: its value or the remote error if it is a version 2.0
  // message that holds one of them properly.
  predicate AnswersAs(m: Message, outcome: Outcome) {
    match outcome
    case Returned(value) => m.version2 && m.body == Result(value)
    case RemoteError => m.version2 && m.body == Body.Error
    case ProtocolError => !m.version2 || m.body == BadError || m.body == Neither
    case _ => false
  }

  lemma ReadingAnswers(m: Message, outcome: Outcome)
    ensures AnswersAs(m, outcome) <==> outcome == Reading(m)
  {
  }

  // How a receive loop ends: foreign messages up to the timer, or up to the event that decides.
  ghost predicate ReceiveEnds(n: Network, t: Transport, u: Transport, conn: nat, id: nat, patience: nat, outcome: Outcome) {
    && u == t.(log := u.log) && t.log <= u.log
    && (forall i | |t.log| <= i < |u.log| - 1 :: Foreign(u.log[i], id))
    && if |u.log| == |t.log| + patience && (|u.log| == |t.log| || Foreign(u.log[|u.log| - 1], id))
       then outcome == Failed(Timeout)
       else
         && |t.log| < |u.log| <= |t.log| + patience
         && var last := |u.log| - 1;
            match n.recv(last)
            case Broken(failure) => u.log[last] == Lost(conn) && outcome == Failed(failure)
            case Garbage => u.log[last] == Unreadable(conn) && outcome == ProtocolError
            case Delivered(m) => u.log[last] == Received(conn, m) && m.id == Some(id) && AnswersAs(m, outcome)
  }

  lemma {:induction false} ReceiveExactly(n: Network, t: Transport, conn: nat, id: nat, patience: nat)
    ensures var (u, outcome) := Receive(n, t, conn, id, patience);
            ReceiveEnds(n, t, u, conn, id, patience, outcome)
    decreases patience
  {
    if patience > 0 && n.recv(|t.log|).Delivered? {
      var m := n.recv(|t.log|).message;
      ReadingAnswers(m, Reading(m));
      if m.id != Some(id) {
        ReceiveExactly(n, Log(t, Received(conn, m)), conn, id, patience - 1);
      }
    }
  }

  // ---- one attempt ----

  // An attempt under this id: its frame went out, or the connection could not be opened for it.
  predicate IsTry(e: Event, id: nat) { e.OpenFailed? || (e.Sent? && e.id == id) }

  function Tries(log: seq<Event>, id: nat): nat {
    if log == [] then 0
    else Tries(log[..|log| - 1], id) + if IsTry(log[|log| - 1], id) then 1 else 0
  }

  lemma {:induction false} TriesTogether(before: seq<Event>, more: seq<Event>, id: nat)
    ensures Tries(before + more, id) == Tries(before, id) + Tries(more, id)
    decreases |more|
  {
    if more == [] {
      assert before + more == before;
    } else {
      assert (before + more)[..|before| + |more| - 1] == before + more[..|more| - 1];
      TriesTogether(before, more[..|more| - 1], id);
    }
  }

  lemma {:induction false} NoTries(log: seq<Event>, id: nat)
    requires forall i | 0 <= i < |log| :: !IsTry(log[i], id)
    ensures Tries(log, id) == 0
  {
    if log != [] {
      NoTries(log[..|log| - 1], id);
    }
  }

  // The event settles the request: an answer under its id, or something unreadable.
  predicate Decides(e: Event, id: nat) {
    e.Unreadable? || (e.Received? && e.message.id == Some(id))
  }

  // The new events of a log.
  function News(t: Transport, u: Transport): seq<Event>
    requires t.log <= u.log
  {
    u.log[|t.log|..]
  }

  // Between the two: so many tries, nothing decided before the end, and something decided exactly without a failure.
  ghost predicate TriedFor(t: Transport, u: Transport, id: nat, tries: nat, outcome: Outcome) {
    && t.log <= u.log && Tries(News(t, u), id) == tries
    && (forall i | 0 <= i < |News(t, u)| - 1 :: !Decides(News(t, u)[i], id))
    && (outcome.Failed? <==> News(t, u) == [] || !Decides(News(t, u)[|News(t, u)| - 1], id))
  }

  lemma OneTry(n: Network, t: Transport, id: nat, name: string)
    ensures var (u, outcome) := RequestOnce(n, t, id, name);
            TriedFor(t, u, id, 1, outcome) && (!outcome.Failed? ==> u.connection.Some?)
  {
    var (ready, failure) := Open(n, t);
    var u := RequestOnce(n, t, id, name).0;
    if failure.Some? {
      assert News(t, u) == [OpenFailed] && [OpenFailed][..0] == [];
    } else {
      var conn := ready.connection.value;
      var sent := Log(ready, Sent(conn, id, name));
      ReceiveExactly(n, sent, conn, id, n.patience(|sent.log|));
      SentThenReceived(t, ready, sent, u, conn, id, name);
    }
  }

  lemma SentThenReceived(t: Transport, ready: Transport, sent: Transport, u: Transport, conn: nat, id: nat, name: string)
    requires t.log <= ready.log && sent.log == ready.log + [Sent(conn, id, name)] && sent.log <= u.log
    requires forall i | |t.log| <= i < |ready.log| :: ready.log[i].Opened?
    requires forall i | |sent.log| <= i < |u.log| :: !IsTry(u.log[i], id)
    ensures t.log <= u.log && Tries(News(t, u), id) == 1
    ensures forall i | 0 <= i < |ready.log| - |t.log| + 1 :: !Decides(News(t, u)[i], id)
  {
    var opening, frame, rest := ready.log[|t.log|..], [Sent(conn, id, name)], u.log[|sent.log|..];
    assert News(t, u) == opening + frame + rest;
    TriesTogether(opening + frame, rest, id);
    TriesTogether(opening, frame, id);
    NoTries(opening, id);
    NoTries(rest, id);
    assert frame[..0] == [] && Tries(frame, id) == 1;
  }

  // ---- the inner transport's own retries ----

  lemma UndecidedTogether(tried: seq<Event>, closing: seq<Event>, more: seq<Event>, id: nat)
    requires forall i | 0 <= i < |tried| :: !Decides(tried[i], id)
    requires forall i | 0 <= i < |closing| :: closing[i].Closed?
    requires forall i | 0 <= i < |more| - 1 :: !Decides(more[i], id)
    ensures var all := tried + closing + more;
            && Tries(all, id) == Tries(tried, id) + Tries(more, id)
            && (forall i | 0 <= i < |all| - 1 :: !Decides(all[i], id))
            && (more == [] ==> forall i | 0 <= i < |all| :: !Decides(all[i], id))
            && (more != [] ==> all[|all| - 1] == more[|more| - 1])
  {
    TriesTogether(tried + closing, more, id);
    TriesTogether(tried, closing, id);
    NoTries(closing, id);
  }

  lemma TriedAgain(t: Transport, done: Transport, reset: Transport, u: Transport, id: nat, tries: nat, first: Outcome,
                   outcome: Outcome)
    requires TriedFor(t, done, id, 1, first) && first.Failed? && TriedFor(reset, u, id, tries, outcome)
    requires reset.log == done.log || (done.connection.Some? && reset.log == done.log + [Closed(done.connection.value)])
    ensures TriedFor(t, u, id, tries + 1, outcome)
  {
    var tried, closing, more := News(t, done), reset.log[|done.log|..], News(reset, u);
    UndecidedTogether(tried, closing, more, id);
    assert News(t, u) == tried + closing + more;
  }

  lemma TriedLast(t: Transport, done: Transport, reset: Transport, id: nat, outcome: Outcome)
    requires TriedFor(t, done, id, 1, outcome) && outcome.Failed?
    requires reset.log == done.log || (done.connection.Some? && reset.log == done.log + [Closed(done.connection.value)])
    ensures TriedFor(t, reset, id, 1, outcome)
  {
    var tried, closing := News(t, done), reset.log[|done.log|..];
    UndecidedTogether(tried, closing, [], id);
    assert News(t, reset) == tried + closing == tried + closing + [];
  }

  // A request of the inner transport fails exactly after using up its attempts without anything decided, and then
  // leaves no connection open; as soon as one attempt gets something that decides, that is the end of it.
  lemma {:induction false} AttemptsExactly(n: Network, t: Transport, id: nat, name: string, left: nat) returns (tries: nat)
    requires left > 0
    ensures 1 <= tries <= left
    ensures var (u, outcome) := Attempts(n, t, id, name, left);
            && TriedFor(t, u, id, tries, outcome) && (outcome.Failed? ==> tries == left)
            && (outcome.Failed? <==> u.connection == None)
    decreases left
  {
    OneTry(n, t, id, name);
    var (done, first) := RequestOnce(n, t, id, name);
    tries := 1;
    if first.Failed? {
      TriedLast(t, done, Reset(done), id, first);
      if left > 1 {
        var more := AttemptsExactly(n, Reset(done), id, name, left - 1);
        var (u, outcome) := Attempts(n, Reset(done), id, name, left - 1);
        TriedAgain(t, done, Reset(done), u, id, more, first, outcome);
        tries := more + 1;
      }
    }
  }

  // ---- the authenticating layer ----

  // One request of an inner transport that does not retry, by what it leaves in the log: the connection could not
  // be opened, or its frame is at this position and the last event decides exactly without a failure.
  ghost predicate Shape(t: Transport, u: Transport, name: string, at: Option<nat>, outcome: Outcome) {
    && t.log <= u.log && u.nextId == t.nextId + 1 && !u.closed && (outcome.Failed? <==> u.connection == None)
    && match at
       case None => u.log == t.log + [OpenFailed] && outcome.Failed? && t.connection == None
       case Some(k) =>
         && |t.log| <= k < |u.log| && u.log[k].Sent? && u.log[k].id == t.nextId && u.log[k].name == name
         && (t.connection.Some? ==> k == |t.log|)
         && (forall i | |t.log| <= i < k :: u.log[i].Opened?)
         && (forall i | k < i < |u.log| :: !u.log[i].Sent? && !u.log[i].OpenFailed?)
         && (forall i | k < i < |u.log| - 1 :: !Decides(u.log[i], t.nextId))
         && (outcome.Failed? <==> !Decides(u.log[|u.log| - 1], t.nextId))
         && (!outcome.Failed? ==> k < |u.log| - 1 && Concluded(u.log[|u.log| - 1], outcome))
  }

  // What the deciding event means for its request.
  predicate Concluded(e: Event, outcome: Outcome) {
    match e
    case Unreadable(_) => outcome == ProtocolError
    case Received(_, m) => AnswersAs(m, outcome)
    case _ => false
  }

  lemma ReceivedShape(n: Network, t: Transport, ready: Transport, sent: Transport, got: Transport, u: Transport, conn: nat,
                      name: string, outcome: Outcome)
    requires t.log <= ready.log && (t.connection.Some? ==> ready.log == t.log)
    requires forall i | |t.log| <= i < |ready.log| :: ready.log[i].Opened?
    requires sent == Log(ready, Sent(conn, t.nextId, name)) && ready.connection == Some(conn) && !ready.closed
    requires ready.nextId == t.nextId + 1
    requires ReceiveEnds(n, sent, got, conn, t.nextId, n.patience(|sent.log|), outcome)
    requires u == if outcome.Failed? then Reset(got) else got
    ensures Shape(t, u, name, Some(|ready.log|), outcome)
  {
    var k := |ready.log|;
    assert t.log <= ready.log <= sent.log <= got.log <= u.log;
    assert u.log[k] == Sent(conn, t.nextId, name);
    forall i | k < i < |u.log| ensures !u.log[i].Sent? && !u.log[i].OpenFailed? {
    }
    forall i | k < i < |u.log| - 1 ensures !Decides(u.log[i], t.nextId) {
    }
    forall i | |t.log| <= i < k ensures u.log[i].Opened? {
      assert u.log[i] == ready.log[i];
    }
  }

  lemma FramedShape(n: Network, t: Transport, ready: Transport, conn: nat, name: string)
    requires t.log <= ready.log && (t.connection.Some? ==> ready.log == t.log)
    requires forall i | |t.log| <= i < |ready.log| :: ready.log[i].Opened?
    requires ready.connection == Some(conn) && !ready.closed && ready.nextId == t.nextId + 1
    ensures var sent := Log(ready, Sent(conn, t.nextId, name));
            var broken := n.send(|ready.log|);
            var (got, outcome) := if broken.Some? then (sent, Failed(broken.value))
                                  else Receive(n, sent, conn, t.nextId, n.patience(|sent.log|));
            Shape(t, if outcome.Failed? then Reset(got) else got, name, Some(|ready.log|), outcome)
  {
    var sent := Log(ready, Sent(conn, t.nextId, name));
    if n.send(|ready.log|) == None {
      ReceiveExactly(n, sent, conn, t.nextId, n.patience(|sent.log|));
      var (got, outcome) := Receive(n, sent, conn, t.nextId, n.patience(|sent.log|));
      ReceivedShape(n, t, ready, sent, got, if outcome.Failed? then Reset(got) else got, conn, name, outcome);
    }
  }

  lemma RequestShape(n: Network, t: Transport, name: string) returns (at: Option<nat>)
    requires !t.closed
    ensures var (u, outcome) := Request(n, t, name, true, 0); Shape(t, u, name, at, outcome)
  {
    var numbered := t.(nextId := t.nextId + 1);
    var (ready, failure) := Open(n, numbered);
    at := None;
    if failure == None {
      at := Some(|ready.log|);
      FramedShape(n, t, ready, ready.connection.value, name);
    }
  }

  // The latest frame in a log.
  function LastFrame(log: seq<Event>): Option<Event> {
    if log == [] then None
    else if log[|log| - 1].Sent? then Some(log[|log| - 1])
    else LastFrame(log[..|log| - 1])
  }

  lemma {:induction false} LastFrameAt(log: seq<Event>, k: nat)
    requires k < |log| && log[k].Sent? && forall i | k < i < |log| :: !log[i].Sent?
    ensures LastFrame(log) == Some(log[k])
  {
    if k < |log| - 1 {
      LastFrameAt(log[..|log| - 1], k);
    }
  }

  predicate Passes(m: Message) { m.version2 && m.body == Result(True) }

  // Event i ends a request: a message nobody can read, or the answer to the latest frame, unless that is the
  // authentication that lets the request's own frame go out.
  predicate Settles(log: seq<Event>, i: nat, auth: string, goesOn: bool)
    requires i < |log|
  {
    || log[i].Unreadable?
    || (log[i].Received? && var frame := LastFrame(log[..i]);
        && frame.Some? && frame.value.Sent? && log[i].message.id == Some(frame.value.id)
        && !(goesOn && frame.value.name == auth && Passes(log[i].message)))
  }

  // What the settling event means: a refused authentication, or the answer to the request itself. A request that
  // cannot be serialized ends with its authentication.
  predicate Settled(log: seq<Event>, auth: string, name: string, outcome: Outcome) {
    && log != []
    && var e, frame := log[|log| - 1], LastFrame(log);
       if e.Unreadable? then outcome == ProtocolError
       else
         && e.Received? && frame.Some? && frame.value.Sent?
         && if frame.value.name != auth || name == auth then AnswersAs(e.message, outcome)
            else if Passes(e.message) then outcome == ProtocolError
            else if e.message.version2 && e.message.body.Result? then outcome == NotAuthenticated
            else AnswersAs(e.message, outcome)
  }

  // An attempt of the authenticating layer begins by opening a connection in vain or with an authentication frame.
  predicate IsStart(e: Event, auth: string) { e.OpenFailed? || (e.Sent? && e.name == auth) }

  function Starts(log: seq<Event>, auth: string): nat {
    if log == [] then 0
    else Starts(log[..|log| - 1], auth) + if IsStart(log[|log| - 1], auth) then 1 else 0
  }

  lemma {:induction false} StartsTogether(before: seq<Event>, after: seq<Event>, auth: string, at: Option<nat>)
    requires before <= after
    requires forall i | |before| <= i < |after| :: IsStart(after[i], auth) <==> at == Some(i)
    requires at.Some? ==> |before| <= at.value < |after|
    ensures Starts(after, auth) == Starts(before, auth) + if at.Some? then 1 else 0
    decreases |after|
  {
    if |before| == |after| {
      assert before == after;
    } else {
      StartsTogether(before, after[..|after| - 1], auth, if at == Some(|after| - 1) then None else at);
    }
  }

  // Attempts from t to u: so many of them, nothing settled before the end, and the end settles the request exactly
  // without a failure. A failure leaves no connection, anything else leaves it open.
  ghost predicate Attempted(t: Transport, u: Transport, auth: string, name: string, serializable: bool, tries: nat,
                            outcome: Outcome)
  {
    var goesOn := name != auth && serializable;
    && t.log < u.log && !u.closed && Starts(u.log, auth) == Starts(t.log, auth) + tries
    && (forall i | |t.log| <= i < |u.log| - 1 :: !Settles(u.log, i, auth, goesOn))
    && (outcome.Failed? <==> !Settles(u.log, |u.log| - 1, auth, goesOn))
    && (outcome.Failed? <==> u.connection == None)
    && (!outcome.Failed? ==> Settled(u.log, auth, name, outcome))
  }

  // The events of one inner request settle nothing before its end.
  lemma ShapeSettles(t: Transport, u: Transport, auth: string, sent: string, goesOn: bool, at: Option<nat>, outcome: Outcome)
    requires Shape(t, u, sent, at, outcome)
    ensures t.log < u.log && forall i | |t.log| <= i < |u.log| - 1 :: !Settles(u.log, i, auth, goesOn)
    ensures outcome.Failed? ==> !Settles(u.log, |u.log| - 1, auth, goesOn)
    ensures !outcome.Failed? ==>
              && at.Some? && LastFrame(u.log) == Some(u.log[at.value]) == LastFrame(u.log[..|u.log| - 1])
              && (Settles(u.log, |u.log| - 1, auth, goesOn) <==> !(goesOn && sent == auth && outcome == Returned(True)))
  {
    if at.Some? {
      forall i | at.value < i <= |u.log| ensures LastFrame(u.log[..i]) == Some(u.log[at.value]) {
        LastFrameAt(u.log[..i], at.value);
      }
      assert u.log[..|u.log|] == u.log;
    }
  }

  lemma SettlesStill(before: seq<Event>, after: seq<Event>, i: nat, auth: string, goesOn: bool)
    requires i < |before| && before <= after
    ensures Settles(before, i, auth, goesOn) <==> Settles(after, i, auth, goesOn)
  {
    assert before[..i] == after[..i];
  }

  // One inner request counts as a start exactly when it authenticates or finds no connection.
  lemma ShapeStarts(t: Transport, u: Transport, auth: string, sent: string, at: Option<nat>, outcome: Outcome)
    requires Shape(t, u, sent, at, outcome) && (sent != auth ==> t.connection.Some?)
    ensures Starts(u.log, auth) == Starts(t.log, auth) + if sent == auth then 1 else 0
  {
    var start := if at == None then Some(|t.log|) else if sent == auth then at else None;
    StartsTogether(t.log, u.log, auth, start);
  }

  lemma Refused(t: Transport, ready: Transport, auth: string, name: string, serializable: bool, at: Option<nat>,
                first: Outcome, outcome: Outcome)
    requires Shape(t, ready, auth, at, first) && (name != auth || serializable)
    requires outcome == if name == auth || !first.Returned? then first
                        else if first.value != True then NotAuthenticated else ProtocolError
    requires first == Returned(True) ==> name == auth || !serializable
    ensures Attempted(t, ready, auth, name, serializable, 1, outcome)
  {
    ShapeStarts(t, ready, auth, auth, at, first);
    ShapeSettles(t, ready, auth, auth, name != auth && serializable, at, first);
  }

  lemma WentOn(t: Transport, ready: Transport, u: Transport, auth: string, name: string, at: Option<nat>,
               frame: Option<nat>, outcome: Outcome)
    requires name != auth && Shape(t, ready, auth, at, Returned(True)) && Shape(ready, u, name, frame, outcome)
    ensures Attempted(t, u, auth, name, true, 1, outcome)
  {
    ShapeStarts(t, ready, auth, auth, at, Returned(True));
    ShapeSettles(t, ready, auth, auth, true, at, Returned(True));
    ShapeStarts(ready, u, auth, name, frame, outcome);
    ShapeSettles(ready, u, auth, name, true, frame, outcome);
    forall i | |t.log| <= i < |ready.log| ensures !Settles(u.log, i, auth, true) {
      SettlesStill(ready.log, u.log, i, auth, true);
    }
  }

  lemma AuthOnceExactly(n: Network, t: Transport, auth: string, name: string, serializable: bool)
    requires !t.closed && (name != auth || serializable)
    ensures var (u, outcome) := AuthOnce(n, t, auth, name, serializable, 0);
            Attempted(t, u, auth, name, serializable, 1, outcome)
  {
    var at := RequestShape(n, t, auth);
    var (ready, first) := Request(n, t, auth, true, 0);
    var (u, outcome) := AuthOnce(n, t, auth, name, serializable, 0);
    if name != auth && first == Returned(True) && serializable {
      var frame := RequestShape(n, ready, name);
      WentOn(t, ready, u, auth, name, at, frame, outcome);
    } else {
      Refused(t, ready, auth, name, serializable, at, first, outcome);
      assert u.log == ready.log && u.connection == ready.connection && !u.closed;
    }
  }

  lemma AttemptedAgain(t: Transport, done: Transport, u: Transport, auth: string, name: string, serializable: bool,
                       more: nat, first: Outcome, outcome: Outcome)
    requires Attempted(t, done, auth, name, serializable, 1, first) && first.Failed?
    requires Attempted(done, u, auth, name, serializable, more, outcome)
    ensures Attempted(t, u, auth, name, serializable, more + 1, outcome)
  {
    var goesOn := name != auth && serializable;
    forall i | |t.log| <= i < |done.log| ensures !Settles(u.log, i, auth, goesOn) {
      SettlesStill(done.log, u.log, i, auth, goesOn);
    }
  }

  // A request fails exactly when all its attempts used up settle nothing; the first attempt that gets an answer,
  // to its authentication or to its own frame, ends it with that answer.
  lemma {:induction false} RetriesExactly(n: Network, t: Transport, auth: string, name: string, serializable: bool, left: nat)
    returns (tries: nat)
    requires left > 0 && !t.closed && (name != auth || serializable)
    ensures 1 <= tries <= left
    ensures var (u, outcome) := AuthRequest(n, t, auth, name, serializable, 0, left);
            Attempted(t, u, auth, name, serializable, tries, outcome) && (outcome.Failed? ==> tries == left)
    decreases left
  {
    AuthOnceExactly(n, t, auth, name, serializable);
    var (done, first) := AuthOnce(n, t, auth, name, serializable, 0);
    tries := 1;
    if first.Failed? && left > 1 {
      var more := RetriesExactly(n, done, auth, name, serializable, left - 1);
      var (u, outcome) := AuthRequest(n, done, auth, name, serializable, 0, left - 1);
      AttemptedAgain(t, done, u, auth, name, serializable, more, first, outcome);
      tries := more + 1;
    }
  }

  // Without a connection to try there is nothing to retry, and nothing that cannot be serialized is sent.
  lemma {:induction false} NothingToTry(n: Network, t: Transport, auth: string, name: string, serializable: bool, inner: nat,
                                        left: nat)
    requires left > 0
    ensures var (u, outcome) := AuthRequest(n, t, auth, name, serializable, inner, left);
            && (t.closed ==> u == t && outcome == Failed(ConnectionFailure))
            && (!t.closed && name == auth && !serializable ==> u.log == t.log && outcome == ProtocolError)
    decreases left
  {
    if t.closed && left > 1 {
      NothingToTry(n, t, auth, name, serializable, inner, left - 1);
    }
  }
}
