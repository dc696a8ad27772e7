// What one agent process can and cannot do, whatever the server and the network answer.
module AgentSafety {
  import opened AgentProtocol

  ghost predicate Vouched(log: seq<Event>, id: nat) {
    exists k :: 0 <= k < |log| && log[k].Validated? && log[k].command.id == id
  }

  ghost predicate EventOk(w: World, before: seq<Event>, e: Event) {
    match e
    case Sent(_) => true
    case Validated(c, now) => Valid(w, c, now)
    case Refreshed(id) => Refreshed(id) !in before && Vouched(before, id)
    case AckSent(id, _) => Refreshed(id) in before && Vouched(before, id)
  }

  // Only valid commands are vouched for, a refresh completes at most once per command, and an
  // acknowledgement goes out only after both.
  ghost predicate LogOk(w: World, log: seq<Event>) {
    log == [] || (LogOk(w, log[..|log| - 1]) && EventOk(w, log[..|log| - 1], log[|log| - 1]))
  }

  ghost predicate AgentOk(w: World, m: Agent) {
    LogOk(w, m.log) && forall id :: id in m.handled <==> Refreshed(id) in m.log
  }

  lemma VouchedGrows(log: seq<Event>, e: Event, id: nat)
    ensures Vouched(log, id) || (e.Validated? && e.command.id == id) <==> Vouched(log + [e], id)
  {
    var all := log + [e];
    assert forall k | 0 <= k < |log| :: all[k] == log[k];
    if Vouched(log, id) {
      var k :| 0 <= k < |log| && log[k].Validated? && log[k].command.id == id;
      assert all[k].Validated? && all[k].command.id == id;
    }
    if e.Validated? && e.command.id == id {
      assert all[|log|].Validated? && all[|log|].command.id == id;
    }
  }

  lemma LogGrows(w: World, m: Agent, e: Event)
    requires AgentOk(w, m) && EventOk(w, m.log, e)
    ensures LogOk(w, m.log + [e])
    ensures forall f :: f in m.log + [e] <==> f in m.log || f == e
  {
    assert (m.log + [e])[..|m.log|] == m.log;
  }

  function Sends(log: seq<Event>): nat {
    if log == [] then 0 else Sends(log[..|log| - 1]) + if log[|log| - 1].Sent? then 1 else 0
  }

  lemma SendsGrow(log: seq<Event>, e: Event)
    ensures Sends(log + [e]) == Sends(log) + if e.Sent? then 1 else 0
  {
    assert (log + [e])[..|log|] == log;
  }

  // The process after a heartbeat that does not process commands.
  ghost predicate OnlySent(w: World, m: Agent, n: Agent, most: nat) {
    && AgentOk(w, n) && n.handled == m.handled && m.log <= n.log
    && Sends(n.log) <= Sends(m.log) + most
    && (forall id | Vouched(m.log, id) :: Vouched(n.log, id))
    && forall e | e in n.log :: e in m.log || e.Sent?
  }

  lemma PlainSend(w: World, m: Agent)
    requires w.maxAttempts > 0 && AgentOk(w, m)
    ensures OnlySent(w, m, SendOnce(w, m, false).0, 1)
    ensures SendOnce(w, m, false).1 != InvalidCommand
  {
    var e := Sent(w.reply(|m.log|));
    LogGrows(w, m, e);
    SendsGrow(m.log, e);
    forall id | Vouched(m.log, id) ensures Vouched(m.log + [e], id) {
      VouchedGrows(m.log, e, id);
    }
  }

  // A refresh never processes commands: it only sends heartbeats, at most maxAttempts of them.
  lemma {:induction false} PlainRetry(w: World, m: Agent, left: nat)
    requires w.maxAttempts > 0 && left > 0 && AgentOk(w, m)
    ensures OnlySent(w, m, Retry(w, m, false, left).0, left)
    ensures Retry(w, m, false, left).1 != InvalidCommand
    decreases left
  {
    PlainSend(w, m);
    var (done, outcome) := SendOnce(w, m, false);
    if outcome == TransportError && left > 1 {
      PlainRetry(w, done, left - 1);
    }
  }

  // The process after anything it can do.
  ghost predicate Advanced(w: World, m: Agent, n: Agent, most: nat) {
    AgentOk(w, n) && m.log <= n.log && m.handled <= n.handled && Sends(n.log) <= Sends(m.log) + most
  }

  lemma Chained(w: World, m: Agent, mid: Agent, n: Agent, first: nat, second: nat, most: nat)
    requires Advanced(w, m, mid, first) && Advanced(w, mid, n, second) && first + second <= most
    ensures Advanced(w, m, n, most)
  {
  }

  lemma OneMore(n: nat, b: nat)
    ensures n > 0 ==> n * b == b + (n - 1) * b
  {
  }

  lemma AtMost(n: nat, most: nat, b: nat)
    requires n <= most
    ensures n * b <= most * b
  {
  }

  // A validated command was already handled, or is now refreshed.
  lemma RefreshAdvances(w: World, m: Agent, id: nat)
    requires w.maxAttempts > 0 && AgentOk(w, m) && Vouched(m.log, id) && id !in m.handled
    ensures var (done, outcome) := RunOnce(w, m, false);
            && Advanced(w, m, done, w.maxAttempts)
            && (outcome.Fine? ==>
                  Advanced(w, m, Agent(done.handled + {id}, done.log + [Refreshed(id)]), w.maxAttempts)
                  && Vouched(done.log + [Refreshed(id)], id))
  {
    PlainRetry(w, m, w.maxAttempts);
    RefreshedOk(w, m, RunOnce(w, m, false).0, id);
  }

  lemma RefreshedOk(w: World, m: Agent, done: Agent, id: nat)
    requires AgentOk(w, m) && OnlySent(w, m, done, w.maxAttempts) && Vouched(m.log, id) && id !in m.handled
    ensures Advanced(w, m, done, w.maxAttempts)
    ensures Advanced(w, m, Agent(done.handled + {id}, done.log + [Refreshed(id)]), w.maxAttempts)
    ensures Vouched(done.log + [Refreshed(id)], id)
  {
    LogGrows(w, done, Refreshed(id));
    VouchedGrows(done.log, Refreshed(id), id);
    SendsGrow(done.log, Refreshed(id));
  }

  lemma ValidatedAdvances(w: World, m: Agent, c: ServerCommand, now: int)
    requires AgentOk(w, m) && Valid(w, c, now)
    ensures Advanced(w, m, Log(m, Validated(c, now)), 0) && Vouched(Log(m, Validated(c, now)).log, c.id)
  {
    var v := Validated(c, now);
    LogGrows(w, m, v);
    VouchedGrows(m.log, v, c.id);
    SendsGrow(m.log, v);
  }

  lemma HandleAdvances(w: World, m: Agent, c: ServerCommand)
    requires w.maxAttempts > 0 && AgentOk(w, m)
    ensures Advanced(w, m, Handle(w, m, c).0, w.maxAttempts)
    ensures Handle(w, m, c).1.Fine? ==>
              var n := Handle(w, m, c).0; Refreshed(c.id) in n.log && Vouched(n.log, c.id)
  {
    var now := w.clock(|m.log|);
    if Valid(w, c, now) {
      var validated := Log(m, Validated(c, now));
      ValidatedAdvances(w, m, c, now);
      if c.id in m.handled {
        Chained(w, m, validated, validated, 0, 0, w.maxAttempts);
      } else {
        RefreshAdvances(w, validated, c.id);
        Chained(w, m, validated, Handle(w, m, c).0, 0, w.maxAttempts, w.maxAttempts);
      }
    } else {
      Chained(w, m, m, m, 0, 0, w.maxAttempts);
    }
  }

  lemma AckAdvances(w: World, m: Agent, id: nat, ok: bool)
    requires AgentOk(w, m) && Refreshed(id) in m.log && Vouched(m.log, id)
    ensures Advanced(w, m, Log(m, AckSent(id, ok)), 0)
  {
    LogGrows(w, m, AckSent(id, ok));
    SendsGrow(m.log, AckSent(id, ok));
  }

  ghost predicate AllAcked(commands: seq<ServerCommand>, log: seq<Event>) {
    forall c | c in commands :: AckSent(c.id, true) in log
  }

  lemma AckStep(w: World, m: Agent, done: Agent, id: nat, ok: bool, most: nat)
    requires Advanced(w, m, done, most) && Refreshed(id) in done.log && Vouched(done.log, id)
    ensures Advanced(w, m, Log(done, AckSent(id, ok)), most)
    ensures AckSent(id, ok) in Log(done, AckSent(id, ok)).log
  {
    AckAdvances(w, done, id, ok);
    assert Log(done, AckSent(id, ok)).log[|done.log|] == AckSent(id, ok);
  }

  function Acked(w: World, done: Agent, id: nat): Agent {
    Log(done, AckSent(id, w.ack(|done.log|)))
  }

  lemma HandleFirst(w: World, m: Agent, c: ServerCommand)
    requires w.maxAttempts > 0 && AgentOk(w, m)
    ensures var (done, outcome) := Handle(w, m, c);
            && Advanced(w, m, done, w.maxAttempts)
            && (outcome.Fine? ==>
                  Advanced(w, m, Acked(w, done, c.id), w.maxAttempts)
                  && AckSent(c.id, w.ack(|done.log|)) in Acked(w, done, c.id).log)
  {
    HandleAdvances(w, m, c);
    var (done, outcome) := Handle(w, m, c);
    if outcome.Fine? {
      AckStep(w, m, done, c.id, w.ack(|done.log|), w.maxAttempts);
    }
  }

  lemma {:induction false} HandleAllAdvances(w: World, m: Agent, commands: seq<ServerCommand>)
    requires w.maxAttempts > 0 && AgentOk(w, m)
    ensures Advanced(w, m, HandleAll(w, m, commands).0, |commands| * w.maxAttempts)
    ensures HandleAll(w, m, commands).1.Fine? ==> AllAcked(commands, HandleAll(w, m, commands).0.log)
    decreases |commands|
  {
    if commands != [] {
      var done, acked, ok, rest := SplitFirst(w, m, commands);
      HandleFirst(w, m, commands[0]);
      AtMost(1, |commands|, w.maxAttempts);
      if !Handle(w, m, commands[0]).1.Fine? {
        Chained(w, m, done, done, w.maxAttempts, 0, |commands| * w.maxAttempts);
      } else if !ok {
        Chained(w, m, acked, acked, w.maxAttempts, 0, |commands| * w.maxAttempts);
      } else {
        HandleAllAdvances(w, acked, commands[1..]);
        HandleRest(w, m, acked, rest, commands);
      }
    }
  }

  // One round of the command loop.
  lemma SplitFirst(w: World, m: Agent, commands: seq<ServerCommand>)
    returns (done: Agent, acked: Agent, ok: bool, rest: Agent)
    requires w.maxAttempts > 0 && commands != []
    ensures done == Handle(w, m, commands[0]).0 && acked == Acked(w, done, commands[0].id) && ok == w.ack(|done.log|)
    ensures !Handle(w, m, commands[0]).1.Fine? ==> HandleAll(w, m, commands) == Handle(w, m, commands[0])
    ensures Handle(w, m, commands[0]).1.Fine? && !ok ==> HandleAll(w, m, commands) == (acked, TransportError)
    ensures Handle(w, m, commands[0]).1.Fine? && ok ==>
              HandleAll(w, m, commands) == HandleAll(w, acked, commands[1..])
              && rest == HandleAll(w, acked, commands[1..]).0
  {
    done := Handle(w, m, commands[0]).0;
    ok := w.ack(|done.log|);
    acked := Acked(w, done, commands[0].id);
    rest := HandleAll(w, acked, commands[1..]).0;
  }

  lemma HandleRest(w: World, m: Agent, acked: Agent, n: Agent, commands: seq<ServerCommand>)
    requires commands != [] && Advanced(w, m, acked, w.maxAttempts) && AckSent(commands[0].id, true) in acked.log
    requires Advanced(w, acked, n, |commands[1..]| * w.maxAttempts)
    ensures Advanced(w, m, n, |commands| * w.maxAttempts)
    ensures AllAcked(commands[1..], n.log) ==> AllAcked(commands, n.log)
  {
    OneMore(|commands|, w.maxAttempts);
    Chained(w, m, acked, n, w.maxAttempts, |commands[1..]| * w.maxAttempts, |commands| * w.maxAttempts);
  }

  function Budget(w: World, processCommands: bool): nat {
    if processCommands then 1 + MAX_COMMANDS * w.maxAttempts else 1
  }

  // After a successful heartbeat every command of the response it ended with was acknowledged.
  ghost predicate Served(m: Agent, n: Agent, processCommands: bool) {
    && m.log <= n.log
    && exists reply: Reply ::
         && Sent(reply) in n.log[|m.log|..] && reply.Replied? && |reply.commands| <= MAX_COMMANDS
         && (processCommands ==> AllAcked(reply.commands, n.log))
  }

  lemma SendOnceAdvances(w: World, m: Agent, processCommands: bool)
    requires w.maxAttempts > 0 && AgentOk(w, m)
    ensures Advanced(w, m, SendOnce(w, m, processCommands).0, Budget(w, processCommands))
    ensures SendOnce(w, m, processCommands).1.Fine? ==> Served(m, SendOnce(w, m, processCommands).0, processCommands)
  {
    var reply := w.reply(|m.log|);
    var sent := Log(m, Sent(reply));
    LogGrows(w, m, Sent(reply));
    SendsGrow(m.log, Sent(reply));
    assert Advanced(w, m, sent, 1);
    if reply.SendFailed? || |reply.commands| > MAX_COMMANDS || (processCommands && reply.commands != [] && !w.attached) {
    } else if !processCommands || reply.commands == [] {
      ServedBy(m, sent, sent, reply, processCommands);
    } else {
      SentAndHandled(w, m, sent, reply);
    }
  }

  lemma SentAndHandled(w: World, m: Agent, sent: Agent, reply: Reply)
    requires w.maxAttempts > 0 && Advanced(w, m, sent, 1) && sent.log == m.log + [Sent(reply)]
    requires reply.Replied? && |reply.commands| <= MAX_COMMANDS
    ensures var (n, outcome) := HandleAll(w, sent, reply.commands);
            Advanced(w, m, n, Budget(w, true)) && (outcome.Fine? ==> Served(m, n, true))
  {
    var (n, outcome) := HandleAll(w, sent, reply.commands);
    HandleAllAdvances(w, sent, reply.commands);
    AtMost(|reply.commands|, MAX_COMMANDS, w.maxAttempts);
    Chained(w, m, sent, n, 1, |reply.commands| * w.maxAttempts, Budget(w, true));
    if outcome.Fine? {
      ServedBy(m, sent, n, reply, true);
    }
  }

  lemma ServedBy(m: Agent, sent: Agent, n: Agent, reply: Reply, processCommands: bool)
    requires sent.log == m.log + [Sent(reply)] && sent.log <= n.log
    requires reply.Replied? && |reply.commands| <= MAX_COMMANDS
    requires processCommands ==> AllAcked(reply.commands, n.log)
    ensures Served(m, n, processCommands)
  {
    assert n.log[|m.log|..][0] == Sent(reply);
  }

  lemma {:induction false} RetryAdvances(w: World, m: Agent, processCommands: bool, left: nat)
    requires w.maxAttempts > 0 && left > 0 && AgentOk(w, m)
    ensures Advanced(w, m, Retry(w, m, processCommands, left).0, left * Budget(w, processCommands))
    ensures Retry(w, m, processCommands, left).1.Fine? ==>
              Served(m, Retry(w, m, processCommands, left).0, processCommands)
    decreases left
  {
    var first, rest := SplitRetry(w, m, processCommands, left);
    var b := Budget(w, processCommands);
    SendOnceAdvances(w, m, processCommands);
    if SendOnce(w, m, processCommands).1 == TransportError && left > 1 {
      RetryAdvances(w, first, processCommands, left - 1);
      RetryRest(w, m, first, rest, b, left);
      ServedEarlier(m, first, rest, processCommands);
    } else {
      AtMost(1, left, b);
      Chained(w, m, first, first, b, 0, left * b);
    }
  }

  // One round of the retry loop.
  lemma SplitRetry(w: World, m: Agent, processCommands: bool, left: nat) returns (first: Agent, rest: Agent)
    requires w.maxAttempts > 0 && left > 0
    ensures first == SendOnce(w, m, processCommands).0
    ensures SendOnce(w, m, processCommands).1 == TransportError && left > 1 ==>
              Retry(w, m, processCommands, left) == Retry(w, first, processCommands, left - 1)
              && rest == Retry(w, first, processCommands, left - 1).0
    ensures !(SendOnce(w, m, processCommands).1 == TransportError && left > 1) ==>
              Retry(w, m, processCommands, left) == SendOnce(w, m, processCommands)
  {
    first := SendOnce(w, m, processCommands).0;
    rest := if left > 1 then Retry(w, first, processCommands, left - 1).0 else first;
  }

  lemma RetryRest(w: World, m: Agent, first: Agent, n: Agent, b: nat, left: nat)
    requires left > 0 && Advanced(w, m, first, b) && Advanced(w, first, n, (left - 1) * b)
    ensures Advanced(w, m, n, left * b)
  {
    OneMore(left, b);
    Chained(w, m, first, n, b, (left - 1) * b, left * b);
  }

  lemma ServedEarlier(m: Agent, mid: Agent, n: Agent, processCommands: bool)
    requires m.log <= mid.log <= n.log
    ensures Served(mid, n, processCommands) ==> Served(m, n, processCommands)
  {
    if Served(mid, n, processCommands) {
      assert n.log[|m.log|..][|mid.log| - |m.log|..] == n.log[|mid.log|..];
    }
  }

  // One run of the agent: it terminates after a number of heartbeats polynomial in the two bounds, keeps every
  // promise of LogOk, forgets nothing it handled, and reports success only for a response it served completely.
  lemma OneRun(w: World, m: Agent, processCommands: bool)
    requires w.maxAttempts > 0 && AgentOk(w, m)
    ensures var (n, outcome) := RunOnce(w, m, processCommands);
            && AgentOk(w, n) && m.log <= n.log && m.handled <= n.handled
            && Sends(n.log) - Sends(m.log) <= w.maxAttempts * (1 + if processCommands then 16 * w.maxAttempts else 0)
            && (outcome.Fine? ==> Served(m, n, processCommands))
  {
    RetryAdvances(w, m, processCommands, w.maxAttempts);
  }

  // The three promises of a process log, spelled out.
  lemma {:induction false} LogPromises(w: World, log: seq<Event>, i: nat)
    requires LogOk(w, log) && i < |log|
    ensures log[i].Validated? ==> Valid(w, log[i].command, log[i].now)
    ensures log[i].Refreshed? ==> log[i] !in log[..i] && log[i] !in log[i + 1..]
    ensures log[i].AckSent? ==> Refreshed(log[i].id) in log[..i] && Vouched(log[..i], log[i].id)
    decreases |log|
  {
    var last := |log| - 1;
    if i < last {
      LogPromises(w, log[..last], i);
      assert log[..last][..i] == log[..i];
      assert log[i + 1..] == log[..last][i + 1..] + [log[last]];
      assert log[i] == log[..last][i];
    }
  }
}
