// When the agent tries again, which commands it serves, and what it reports in the end.
module AgentProgress {
  import opened AgentProtocol

  // ---- one refresh ----

  // A response the agent can use.
  predicate Good(reply: Reply) { reply.Replied? && |reply.commands| <= 16 }

  // So many heartbeats and nothing else: all but the last went wrong, and the last one too exactly if the refresh
  // failed, which takes all attempts.
  ghost predicate OnlyHeartbeats(w: World, m: Agent, n: Agent, tries: nat, left: nat, outcome: Outcome) {
    && n.handled == m.handled && m.log <= n.log && |n.log| == |m.log| + tries && 1 <= tries <= left
    && (forall i | |m.log| <= i < |n.log| :: n.log[i] == Sent(w.reply(i)))
    && (forall i | |m.log| <= i < |n.log| - 1 :: !Good(w.reply(i)))
    && outcome == (if Good(w.reply(|n.log| - 1)) then Fine else TransportError)
    && (outcome != Fine ==> tries == left)
  }

  lemma {:induction false} RefreshExactly(w: World, m: Agent, left: nat) returns (tries: nat)
    requires w.maxAttempts > 0 && left > 0
    ensures var (n, outcome) := Retry(w, m, false, left); OnlyHeartbeats(w, m, n, tries, left, outcome)
    decreases left
  {
    tries := 1;
    var (done, outcome) := SendOnce(w, m, false);
    if outcome == TransportError && left > 1 {
      var more := RefreshExactly(w, done, left - 1);
      tries := more + 1;
    }
  }

  // ---- one command ----

  // A command the agent may carry out at this moment.
  predicate Sound(w: World, c: ServerCommand, now: int) {
    c.name == "refresh_process_snapshot" && c.signature != "" && c.expiresAt > now && w.verify(c)
  }

  // The commands that the server was told of, in order.
  function Acks(log: seq<Event>): seq<nat> {
    if log == [] then []
    else
      var last := log[|log| - 1];
      Acks(log[..|log| - 1]) + if last.AckSent? && last.ok then [last.id] else []
  }

  lemma {:induction false} NoAcks(before: seq<Event>, after: seq<Event>)
    requires before <= after && forall i | |before| <= i < |after| :: !after[i].AckSent?
    ensures Acks(after) == Acks(before)
    decreases |after|
  {
    if |before| == |after| {
      assert before == after;
    } else {
      NoAcks(before, after[..|after| - 1]);
    }
  }

  lemma OneMoreAck(log: seq<Event>, id: nat, ok: bool)
    ensures Acks(log + [AckSent(id, ok)]) == Acks(log) + if ok then [id] else []
  {
    assert (log + [AckSent(id, ok)])[..|log|] == log;
  }

  // The heartbeat or the acknowledgement that was sent last did not get through.
  predicate Broken(e: Event) {
    (e.Sent? && !Good(e.reply)) || (e.AckSent? && !e.ok)
  }

  // What becomes of one command: an unsound one is refused before anything is done, a handled one is only
  // validated again, and any other is refreshed for, or fails with the last heartbeat of its refresh.
  ghost predicate Carried(w: World, m: Agent, n: Agent, c: ServerCommand, tries: nat, outcome: Outcome) {
    var now := w.clock(|m.log|);
    var validated := Agent(m.handled, m.log + [Validated(c, now)]);
    if !Sound(w, c, now) then n == m && outcome == InvalidCommand
    else if c.id in m.handled then n == validated && outcome == Fine
    else if outcome == Fine then
      && n.log != [] && n.log[|n.log| - 1] == Refreshed(c.id) && n.handled == m.handled + {c.id}
      && OnlyHeartbeats(w, validated, Agent(m.handled, n.log[..|n.log| - 1]), tries, w.maxAttempts, Fine)
    else OnlyHeartbeats(w, validated, n, tries, w.maxAttempts, outcome)
  }

  lemma HandleExactly(w: World, m: Agent, c: ServerCommand) returns (tries: nat)
    requires w.maxAttempts > 0
    ensures var (n, outcome) := Handle(w, m, c); Carried(w, m, n, c, tries, outcome)
  {
    var validated := Log(m, Validated(c, w.clock(|m.log|)));
    tries := RefreshExactly(w, validated, w.maxAttempts);
    var done := RunOnce(w, validated, false).0;
    assert (done.log + [Refreshed(c.id)])[..|done.log|] == done.log;
  }

  lemma CarriedAcks(w: World, m: Agent, n: Agent, c: ServerCommand, tries: nat, outcome: Outcome)
    requires Carried(w, m, n, c, tries, outcome)
    ensures m.log <= n.log && Acks(n.log) == Acks(m.log)
    ensures outcome == InvalidCommand ==> n == m && !Sound(w, c, w.clock(|m.log|))
    ensures outcome == TransportError ==> n.log != [] && Broken(n.log[|n.log| - 1])
  {
    NoAcks(m.log, n.log);
  }

  lemma HandleServes(w: World, m: Agent, c: ServerCommand, n: Agent, outcome: Outcome)
    requires w.maxAttempts > 0 && (n, outcome) == Handle(w, m, c)
    ensures m.log <= n.log && Acks(n.log) == Acks(m.log)
    ensures outcome == InvalidCommand ==> n == m && !Sound(w, c, w.clock(|m.log|))
    ensures outcome == TransportError ==> n.log != [] && Broken(n.log[|n.log| - 1])
  {
    var tries := HandleExactly(w, m, c);
    CarriedAcks(w, m, n, c, tries, outcome);
  }

  // ---- the command loop ----

  function Ids(commands: seq<ServerCommand>): seq<nat> {
    seq(|commands|, i requires 0 <= i < |commands| => commands[i].id)
  }

  // The first `served` commands were acknowledged, in order; the next one stopped the loop, as unsound or by
  // something that did not get through.
  ghost predicate Stopped(w: World, m: Agent, n: Agent, commands: seq<ServerCommand>, served: nat, outcome: Outcome) {
    && m.log <= n.log && served <= |commands| && Acks(n.log) == Acks(m.log) + Ids(commands[..served])
    && (outcome == Fine <==> served == |commands|)
    && (served < |commands| ==>
          outcome == if n.log != [] && Broken(n.log[|n.log| - 1]) then TransportError else InvalidCommand)
    && (outcome == InvalidCommand ==> !Sound(w, commands[served], w.clock(|n.log|)))
  }

  lemma StoppedLater(w: World, m: Agent, acked: Agent, n: Agent, commands: seq<ServerCommand>, served: nat, outcome: Outcome)
    requires commands != [] && m.log <= acked.log && Acks(acked.log) == Acks(m.log) + [commands[0].id]
    requires Stopped(w, acked, n, commands[1..], served, outcome)
    ensures Stopped(w, m, n, commands, served + 1, outcome)
  {
    assert commands[..served + 1][0] == commands[0] && commands[..served + 1][1..] == commands[1..][..served];
    assert Ids(commands[..served + 1]) == [commands[0].id] + Ids(commands[1..][..served]);
  }

  lemma StoppedAtOnce(w: World, m: Agent, n: Agent, commands: seq<ServerCommand>, outcome: Outcome)
    requires commands != [] && outcome != Fine && m.log <= n.log && Acks(n.log) == Acks(m.log)
    requires outcome == TransportError ==> n.log != [] && Broken(n.log[|n.log| - 1])
    requires outcome == InvalidCommand ==>
               !Sound(w, commands[0], w.clock(|n.log|)) && (n.log != [] ==> !Broken(n.log[|n.log| - 1]))
    ensures Stopped(w, m, n, commands, 0, outcome)
  {
    assert Ids(commands[..0]) == [];
  }

  lemma NoneToServe(w: World, m: Agent)
    ensures Stopped(w, m, m, [], 0, Fine)
  {
    assert Ids([]) == [];
  }

  lemma AckLost(w: World, m: Agent, done: Agent, commands: seq<ServerCommand>, id: nat)
    requires commands != [] && m.log <= done.log && Acks(done.log) == Acks(m.log)
    ensures Stopped(w, m, Log(done, AckSent(id, false)), commands, 0, TransportError)
  {
    OneMoreAck(done.log, id, false);
    StoppedAtOnce(w, m, Log(done, AckSent(id, false)), commands, TransportError);
  }

  lemma AckedThen(w: World, m: Agent, done: Agent, n: Agent, commands: seq<ServerCommand>, served: nat, outcome: Outcome)
    requires commands != [] && m.log <= done.log && Acks(done.log) == Acks(m.log)
    requires Stopped(w, Log(done, AckSent(commands[0].id, true)), n, commands[1..], served, outcome)
    ensures Stopped(w, m, n, commands, served + 1, outcome)
  {
    OneMoreAck(done.log, commands[0].id, true);
    StoppedLater(w, m, Log(done, AckSent(commands[0].id, true)), n, commands, served, outcome);
  }

  // One round of the command loop: what came of the first command, and whether its acknowledgement got through.
  lemma OneRound(w: World, m: Agent, commands: seq<ServerCommand>, n: Agent, end: Outcome)
    returns (done: Agent, outcome: Outcome, ok: bool)
    requires w.maxAttempts > 0 && commands != [] && (n, end) == HandleAll(w, m, commands)
    ensures m.log <= done.log && Acks(done.log) == Acks(m.log)
    ensures outcome == InvalidCommand ==> done == m && !Sound(w, commands[0], w.clock(|m.log|))
    ensures outcome == TransportError ==> done.log != [] && Broken(done.log[|done.log| - 1])
    ensures outcome != Fine ==> n == done && end == outcome
    ensures outcome == Fine && ok ==> (n, end) == HandleAll(w, Log(done, AckSent(commands[0].id, true)), commands[1..])
    ensures outcome == Fine && !ok ==> n == Log(done, AckSent(commands[0].id, false)) && end == TransportError
  {
    done, outcome := Handle(w, m, commands[0]).0, Handle(w, m, commands[0]).1;
    ok := w.ack(|done.log|);
    HandleServes(w, m, commands[0], done, outcome);
  }

  lemma {:induction false} ServesExactly(w: World, m: Agent, commands: seq<ServerCommand>, n: Agent, end: Outcome)
    returns (served: nat)
    requires w.maxAttempts > 0 && (m.log != [] ==> !Broken(m.log[|m.log| - 1])) && (n, end) == HandleAll(w, m, commands)
    ensures Stopped(w, m, n, commands, served, end)
    decreases |commands|
  {
    served := 0;
    if commands == [] {
      NoneToServe(w, m);
    } else {
      var done, outcome, ok := OneRound(w, m, commands, n, end);
      if outcome != Fine {
        StoppedAtOnce(w, m, done, commands, outcome);
      } else if !ok {
        AckLost(w, m, done, commands, commands[0].id);
      } else {
        var more := ServesExactly(w, Log(done, AckSent(commands[0].id, true)), commands[1..], n, end);
        AckedThen(w, m, done, n, commands, more, end);
        served := more + 1;
      }
    }
  }

  // ---- one heartbeat, and the run ----

  // One heartbeat of the run's own: it is fine exactly if its response is usable and, where commands are to be
  // processed, all of them were acknowledged.
  ghost predicate Answered(w: World, m: Agent, n: Agent, processCommands: bool, served: nat, outcome: Outcome) {
    var reply := w.reply(|m.log|);
    && |m.log| < |n.log| && m.log <= n.log && n.log[|m.log|] == Sent(reply)
    && if !Good(reply) then served == 0 && outcome == TransportError && |n.log| == |m.log| + 1
       else if !processCommands || (!w.attached && reply.commands != []) then
         served == 0 && outcome == (if processCommands then TransportError else Fine) && |n.log| == |m.log| + 1
       else Stopped(w, Agent(m.handled, m.log + [Sent(reply)]), n, reply.commands, served, outcome)
  }

  lemma HeartbeatExactly(w: World, m: Agent, processCommands: bool) returns (served: nat)
    requires w.maxAttempts > 0
    ensures var (n, outcome) := SendOnce(w, m, processCommands); Answered(w, m, n, processCommands, served, outcome)
  {
    served := 0;
    var reply := w.reply(|m.log|);
    var sent := Log(m, Sent(reply));
    if Good(reply) && processCommands {
      if reply.commands == [] {
        assert Ids(reply.commands[..0]) == [];
      } else if w.attached {
        var (n, outcome) := HandleAll(w, sent, reply.commands);
        served := ServesExactly(w, sent, reply.commands, n, outcome);
      }
    }
  }

  // The heartbeats of a run, one after the other: each but the last failed in transport.
  ghost predicate Chain(w: World, agents: seq<Agent>, served: seq<nat>, processCommands: bool, outcome: Outcome) {
    && served != [] && |agents| == |served| + 1
    && forall i | 0 <= i < |served| ::
         Answered(w, agents[i], agents[i + 1], processCommands, served[i],
                  if i == |served| - 1 then outcome else TransportError)
  }

  // A run ends with the first heartbeat that does not fail in transport, and reports a transport failure exactly
  // when all attempts were used up on them.
  lemma {:induction false} RetriesExactly(w: World, m: Agent, processCommands: bool, left: nat)
    returns (agents: seq<Agent>, served: seq<nat>)
    requires w.maxAttempts > 0 && left > 0
    ensures var (n, outcome) := Retry(w, m, processCommands, left);
            && Chain(w, agents, served, processCommands, outcome) && agents[0] == m && agents[|served|] == n
            && |served| <= left && (outcome == TransportError ==> |served| == left)
    decreases left
  {
    var first := HeartbeatExactly(w, m, processCommands);
    var (done, outcome) := SendOnce(w, m, processCommands);
    if outcome != TransportError || left == 1 {
      agents, served := [m, done], [first];
    } else {
      var later, more := RetriesExactly(w, done, processCommands, left - 1);
      var (n, end) := Retry(w, done, processCommands, left - 1);
      agents, served := [m] + later, [first] + more;
      forall i | 0 <= i < |served|
        ensures Answered(w, agents[i], agents[i + 1], processCommands, served[i],
                         if i == |served| - 1 then end else TransportError)
      {
        if i > 0 { assert agents[i] == later[i - 1] && served[i] == more[i - 1]; }
      }
    }
  }

  lemma RunExactly(w: World, m: Agent, processCommands: bool) returns (agents: seq<Agent>, served: seq<nat>)
    requires w.maxAttempts > 0
    ensures var (n, outcome) := RunOnce(w, m, processCommands);
            && Chain(w, agents, served, processCommands, outcome) && agents[0] == m && agents[|served|] == n
            && |served| <= w.maxAttempts && (outcome == TransportError ==> |served| == w.maxAttempts)
  {
    agents, served := RetriesExactly(w, m, processCommands, w.maxAttempts);
  }
}
