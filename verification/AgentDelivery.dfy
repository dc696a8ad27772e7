// Server, network and agents together: commands travel over a network that loses, repeats and delays
// messages, and agent processes stop and start at any moment.
module AgentDelivery {
  import AgentCommands
  import L = AgentLeases
  import opened AgentProtocol
  import opened AgentSafety

  // One process of an agent, from its start.
  datatype Process = Process(agent: nat, log: seq<Event>)

  datatype System = System(server: L.Store, processes: seq<Process>)

  datatype Move =
    | Start(agent: nat)
    | Observe(p: nat, event: Event)
    | Serve(act: L.Action)

  // The network carries only what was sent, but any number of times and at any later moment: the server
  // may see an acknowledgement whenever some process of that agent once sent it.
  ghost predicate OnTheWire(s: System, agent: nat, id: nat) {
    exists p, ok :: 0 <= p < |s.processes| && s.processes[p].agent == agent && AckSent(id, ok) in s.processes[p].log
  }

  ghost predicate Enabled(w: World, s: System, m: Move) {
    match m
    case Start(_) => true
    case Observe(p, e) => p < |s.processes| && EventOk(w, s.processes[p].log, e)
    case Serve(a) => L.Enabled(s.server, a) && (a.Ack? ==> OnTheWire(s, a.agent, a.id))
  }

  function Next(s: System, m: Move): System {
    match m
    case Start(agent) => s.(processes := s.processes + [Process(agent, [])])
    case Observe(p, e) =>
      if p < |s.processes| then
        s.(processes := s.processes[p := s.processes[p].(log := s.processes[p].log + [e])])
      else s
    case Serve(a) => s.(server := L.Step(s.server, a))
  }

  function Run(s: System, moves: seq<Move>): System {
    if moves == [] then s else Next(Run(s, moves[..|moves| - 1]), moves[|moves| - 1])
  }

  ghost predicate Possible(w: World, s: System, moves: seq<Move>)
    decreases |moves|
  {
    moves == [] || (Possible(w, s, moves[..|moves| - 1])
                    && Enabled(w, Run(s, moves[..|moves| - 1]), moves[|moves| - 1]))
  }

  // Some process of the agent validated the command and completed its refresh.
  ghost predicate Executed(s: System, agent: nat, id: nat) {
    exists p :: 0 <= p < |s.processes| && s.processes[p].agent == agent
                && Refreshed(id) in s.processes[p].log && Vouched(s.processes[p].log, id)
  }

  ghost predicate SystemOk(w: World, s: System) {
    && L.StoreOk(s.server)
    && (forall p | 0 <= p < |s.processes| :: LogOk(w, s.processes[p].log))
    && forall i | 0 <= i < |s.server.slots| && s.server.slots[i].command.status == AgentCommands.Acknowledged ::
         Executed(s, s.server.slots[i].command.agent, s.server.slots[i].command.id)
  }

  lemma {:induction false} AckSentImplies(w: World, log: seq<Event>, id: nat, ok: bool)
    requires LogOk(w, log) && AckSent(id, ok) in log
    ensures Refreshed(id) in log && Vouched(log, id)
  {
    var last := |log| - 1;
    assert log == log[..last] + [log[last]];
    if log[last] != AckSent(id, ok) {
      AckSentImplies(w, log[..last], id, ok);
    }
    VouchedGrows(log[..last], log[last], id);
  }

  // What was executed stays executed.
  lemma ExecutedKept(w: World, s: System, m: Move, agent: nat, id: nat)
    requires Executed(s, agent, id)
    ensures Executed(Next(s, m), agent, id)
  {
    var p :| 0 <= p < |s.processes| && s.processes[p].agent == agent
             && Refreshed(id) in s.processes[p].log && Vouched(s.processes[p].log, id);
    var t := Next(s, m);
    if m.Observe? {
      VouchedGrows(s.processes[p].log, m.event, id);
    }
    assert t.processes[p].agent == agent && Refreshed(id) in t.processes[p].log && Vouched(t.processes[p].log, id);
  }

  lemma AckIsExecuted(w: World, s: System, agent: nat, id: nat)
    requires SystemOk(w, s) && OnTheWire(s, agent, id)
    ensures Executed(s, agent, id)
  {
    var p, ok :| 0 <= p < |s.processes| && s.processes[p].agent == agent && AckSent(id, ok) in s.processes[p].log;
    AckSentImplies(w, s.processes[p].log, id, ok);
  }

  lemma ServeOk(w: World, s: System, a: L.Action)
    requires SystemOk(w, s) && Enabled(w, s, Serve(a))
    ensures SystemOk(w, Next(s, Serve(a)))
  {
    var t := Next(s, Serve(a));
    forall i | 0 <= i < |s.server.slots|
      ensures L.SlotOk(t.server.slots[i], a.now)
      ensures t.server.slots[i].command.status == AgentCommands.Acknowledged ==>
                Executed(t, t.server.slots[i].command.agent, t.server.slots[i].command.id)
    {
      var hit := L.Hit(s.server, a, i);
      L.TouchOk(s.server.slots[i], a, hit, s.server.clock);
      if s.server.slots[i].command.status == AgentCommands.Acknowledged {
        ExecutedKept(w, s, Serve(a), s.server.slots[i].command.agent, s.server.slots[i].command.id);
      } else if a.Ack? && hit {
        AckIsExecuted(w, s, a.agent, a.id);
        ExecutedKept(w, s, Serve(a), a.agent, a.id);
      }
    }
  }

  lemma MoveOk(w: World, s: System, m: Move)
    requires SystemOk(w, s) && Enabled(w, s, m)
    ensures SystemOk(w, Next(s, m))
  {
    if m.Serve? {
      ServeOk(w, s, m.act);
    } else {
      var t := Next(s, m);
      forall i | 0 <= i < |s.server.slots| && s.server.slots[i].command.status == AgentCommands.Acknowledged
        ensures Executed(t, s.server.slots[i].command.agent, s.server.slots[i].command.id)
      {
        ExecutedKept(w, s, m, s.server.slots[i].command.agent, s.server.slots[i].command.id);
      }
      if m.Observe? {
        var log := s.processes[m.p].log;
        assert (log + [m.event])[..|log|] == log;
      }
    }
  }

  // End to end: whatever is lost, repeated or restarted, the server records ACKNOWLEDGED only for a command
  // that a process of that agent validated and whose refresh completed, and no process completes a
  // command's refresh twice.
  lemma {:induction false} AcknowledgedWasExecuted(w: World, clock: int, moves: seq<Move>)
    requires Possible(w, System(L.Store([], clock), []), moves)
    ensures SystemOk(w, Run(System(L.Store([], clock), []), moves))
  {
    if moves != [] {
      AcknowledgedWasExecuted(w, clock, moves[..|moves| - 1]);
      MoveOk(w, Run(System(L.Store([], clock), []), moves[..|moves| - 1]), moves[|moves| - 1]);
    }
  }

  lemma RefreshedOnce(w: World, s: System, p: nat, i: nat, j: nat)
    requires SystemOk(w, s) && p < |s.processes| && i < j < |s.processes[p].log|
    ensures !(s.processes[p].log[i].Refreshed? && s.processes[p].log[j] == s.processes[p].log[i])
  {
    LogPromises(w, s.processes[p].log, i);
    if s.processes[p].log[j] == s.processes[p].log[i] {
      assert s.processes[p].log[i + 1..][j - i - 1] == s.processes[p].log[j];
    }
  }

  lemma {:induction false} PrefixOk(w: World, log: seq<Event>, k: nat)
    requires LogOk(w, log) && k < |log|
    ensures LogOk(w, log[..k]) && EventOk(w, log[..k], log[k])
    decreases |log|
  {
    var last := |log| - 1;
    if k < last {
      PrefixOk(w, log[..last], k);
      assert log[..last][..k] == log[..k];
    }
  }

  lemma RunOneMore(w: World, s: System, moves: seq<Move>, m: Move)
    ensures Run(s, moves + [m]) == Next(Run(s, moves), m)
    ensures Possible(w, s, moves + [m]) <==> Possible(w, s, moves) && Enabled(w, Run(s, moves), m)
  {
    assert (moves + [m])[..|moves|] == moves;
  }

  lemma {:induction false} LogIsPossible(w: World, s: System, p: nat, log: seq<Event>, upTo: nat)
    returns (moves: seq<Move>)
    requires p < |s.processes| && s.processes[p].log <= log && LogOk(w, log) && |s.processes[p].log| <= upTo <= |log|
    ensures Possible(w, s, moves)
    ensures Run(s, moves) == s.(processes := s.processes[p := s.processes[p].(log := log[..upTo])])
    decreases upTo
  {
    var start := s.processes[p].log;
    if upTo == |start| {
      moves := [];
      assert log[..upTo] == start;
      assert s.processes[p := s.processes[p].(log := start)] == s.processes;
    } else {
      moves := LogIsPossible(w, s, p, log, upTo - 1);
      var e := log[upTo - 1];
      PrefixOk(w, log, upTo - 1);
      RunOneMore(w, s, moves, Observe(p, e));
      moves := moves + [Observe(p, e)];
      assert log[..upTo - 1] + [e] == log[..upTo];
    }
  }

  // Every event of a run of the agent is a possible move, in the order the agent makes them.
  lemma AgentRunIsPossible(w: World, s: System, p: nat, m: Agent, processCommands: bool) returns (moves: seq<Move>)
    requires w.maxAttempts > 0 && AgentOk(w, m) && p < |s.processes| && s.processes[p].log == m.log
    ensures Possible(w, s, moves)
    ensures Run(s, moves)
         == s.(processes := s.processes[p := s.processes[p].(log := RunOnce(w, m, processCommands).0.log)])
  {
    OneRun(w, m, processCommands);
    var log := RunOnce(w, m, processCommands).0.log;
    moves := LogIsPossible(w, s, p, log, |log|);
    assert log[..|log|] == log;
  }
}
