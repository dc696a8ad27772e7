// The agent's two classes, wired to each other as the composition root does it.
module AgentRuntime {
  import opened AgentProtocol

  // The transport and the clock, with a record of what happened.
  class Wire {
    const world: World
    var log: seq<Event>

    constructor (world: World)
      ensures this.world == world && log == []
    {
      this.world := world;
      log := [];
    }

    method Send() returns (reply: Reply)
      modifies this
      ensures log == old(log) + [Sent(world.reply(|old(log)|))]
      ensures reply == (var r := world.reply(|old(log)|);
                        if r.Replied? && |r.commands| > MAX_COMMANDS then SendFailed else r)
    {
      reply := world.reply(|log|);
      log := log + [Sent(reply)];
      if reply.Replied? && |reply.commands| > MAX_COMMANDS {
        reply := SendFailed;
      }
    }

    method Acknowledge(id: nat) returns (ok: bool)
      modifies this
      ensures ok == world.ack(|old(log)|) && log == old(log) + [AckSent(id, ok)]
    {
      ok := world.ack(|log|);
      log := log + [AckSent(id, ok)];
    }

    method Note(e: Event)
      modifies this
      ensures log == old(log) + [e]
    {
      log := log + [e];
    }
  }

  class AgentCommandHandler {
    const wire: Wire
    const heartbeat: HeartbeatAgent
    var handled: set<nat>

    constructor (wire: Wire, heartbeat: HeartbeatAgent)
      ensures this.wire == wire && this.heartbeat == heartbeat && handled == {}
    {
      this.wire, this.heartbeat, handled := wire, heartbeat, {};
    }

    method Handle(c: ServerCommand) returns (outcome: Outcome)
      requires heartbeat.Wired(wire, this)
      modifies wire, this`handled
      ensures (Agent(handled, wire.log), outcome) == AgentProtocol.Handle(wire.world, old(Agent(handled, wire.log)), c)
      decreases Level(true), 0, 0
    {
      var now := wire.world.clock(|wire.log|);
      if !Valid(wire.world, c, now) {
        return InvalidCommand;
      }
      wire.Note(Validated(c, now));
      if c.id in handled {
        return Fine;
      }
      outcome := heartbeat.RunOnce(false, this);
      if outcome != Fine {
        return;
      }
      wire.Note(Refreshed(c.id));
      handled := handled + {c.id};
    }
  }

  class HeartbeatAgent {
    const wire: Wire
    var receiver: AgentCommandHandler?

    constructor (wire: Wire)
      ensures this.wire == wire && receiver == null
    {
      this.wire, receiver := wire, null;
    }

    // Attached once; a second receiver is refused.
    method Attach(handler: AgentCommandHandler) returns (ok: bool)
      modifies this
      ensures ok == (old(receiver) == null) && receiver == if ok then handler else old(receiver)
    {
      ok := receiver == null;
      if ok {
        receiver := handler;
      }
    }

    // This agent and the handler that stands for the process's handled set.
    ghost predicate Wired(wire: Wire, handler: AgentCommandHandler)
      reads this
    {
      && this.wire == wire == handler.wire && handler.heartbeat == this
      && (receiver == null || receiver == handler)
      && wire.world.attached == (receiver != null) && wire.world.maxAttempts > 0
    }

    method SendOnce(processCommands: bool, ghost handler: AgentCommandHandler) returns (outcome: Outcome)
      requires Wired(wire, handler)
      modifies wire, handler`handled
      ensures (Agent(handler.handled, wire.log), outcome)
           == AgentProtocol.SendOnce(wire.world, old(Agent(handler.handled, wire.log)), processCommands)
      decreases Level(processCommands), 1, 0
    {
      var reply := wire.Send();
      if reply.SendFailed? {
        return TransportError;
      }
      if !processCommands || reply.commands == [] {
        return Fine;
      }
      if receiver == null {
        return TransportError;
      }
      outcome := HandleAll(reply.commands, receiver);
    }

    // The command loop of a heartbeat.
    method HandleAll(commands: seq<ServerCommand>, handler: AgentCommandHandler) returns (outcome: Outcome)
      requires Wired(wire, handler)
      modifies wire, handler`handled
      ensures (Agent(handler.handled, wire.log), outcome)
           == AgentProtocol.HandleAll(wire.world, old(Agent(handler.handled, wire.log)), commands)
      decreases Level(true), 0, |commands| + 1
    {
      outcome := Fine;
      ghost var whole := AgentProtocol.HandleAll(wire.world, Agent(handler.handled, wire.log), commands);
      assert commands[0..] == commands;
      for i := 0 to |commands|
        invariant Wired(wire, handler)
        invariant whole == AgentProtocol.HandleAll(wire.world, Agent(handler.handled, wire.log), commands[i..])
      {
        assert commands[i..][1..] == commands[i + 1..];
        outcome := handler.Handle(commands[i]);
        if outcome != Fine {
          return;
        }
        var ok := wire.Acknowledge(commands[i].id);
        if !ok {
          return TransportError;
        }
      }
      outcome := Fine;
    }

    method SendWithRetry(processCommands: bool, ghost handler: AgentCommandHandler) returns (outcome: Outcome)
      requires Wired(wire, handler)
      modifies wire, handler`handled
      ensures (Agent(handler.handled, wire.log), outcome)
           == Retry(wire.world, old(Agent(handler.handled, wire.log)), processCommands, wire.world.maxAttempts)
      decreases Level(processCommands), 2, 0
    {
      ghost var whole := Retry(wire.world, Agent(handler.handled, wire.log), processCommands, wire.world.maxAttempts);
      outcome := TransportError;
      for attempt := 0 to wire.world.maxAttempts
        invariant Wired(wire, handler)
        invariant attempt < wire.world.maxAttempts ==>
                    whole == Retry(wire.world, Agent(handler.handled, wire.log), processCommands,
                                   wire.world.maxAttempts - attempt)
        invariant attempt == wire.world.maxAttempts ==> whole == (Agent(handler.handled, wire.log), outcome)
      {
        outcome := SendOnce(processCommands, handler);
        if outcome != TransportError {
          return;
        }
      }
    }

    method RunOnce(processCommands: bool, ghost handler: AgentCommandHandler) returns (outcome: Outcome)
      requires Wired(wire, handler)
      modifies wire, handler`handled
      ensures (Agent(handler.handled, wire.log), outcome)
           == AgentProtocol.RunOnce(wire.world, old(Agent(handler.handled, wire.log)), processCommands)
      decreases Level(processCommands), 3, 0
    {
      outcome := SendWithRetry(processCommands, handler);
    }
  }
}
