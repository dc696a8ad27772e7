// What the agent does: heartbeats with bounded retries, and signed commands handled between them.
module AgentProtocol {
  datatype ServerCommand = ServerCommand(id: nat, name: string, expiresAt: int, signature: string)

  // A heartbeat comes back with commands, or the transport raises.
  datatype Reply = Replied(commands: seq<ServerCommand>) | SendFailed

  datatype Event =
    | Sent(reply: Reply)
    | Validated(command: ServerCommand, now: int)
    | Refreshed(id: nat)
    | AckSent(id: nat, ok: bool)

  datatype Outcome = Fine | TransportError | InvalidCommand

  const MAX_COMMANDS: nat := 16
  const ALLOWED_COMMAND := "refresh_process_snapshot"

  // The world answers by position in the process's event log, so every pattern of replies, losses and times
  // is some World.
  datatype World = World(reply: nat -> Reply, ack: nat -> bool, clock: nat -> int,
                         verify: ServerCommand -> bool, attached: bool, maxAttempts: nat)

  // One process: what it handled since it started, and everything it did.
  datatype Agent = Agent(handled: set<nat>, log: seq<Event>)

  predicate Valid(w: World, c: ServerCommand, now: int) {
    c.name == ALLOWED_COMMAND && c.signature != "" && c.expiresAt > now && w.verify(c)
  }

  function Log(m: Agent, e: Event): Agent { m.(log := m.log + [e]) }

  function Level(processCommands: bool): nat { if processCommands then 1 else 0 }

  function SendOnce(w: World, m: Agent, processCommands: bool): (Agent, Outcome)
    requires w.maxAttempts > 0
    decreases Level(processCommands), 1, 0
  {
    var reply := w.reply(|m.log|);
    var sent := Log(m, Sent(reply));
    if reply.SendFailed? || |reply.commands| > MAX_COMMANDS then (sent, TransportError)
    else if !processCommands || reply.commands == [] then (sent, Fine)
    else if !w.attached then (sent, TransportError)
    else HandleAll(w, sent, reply.commands)
  }

  function HandleAll(w: World, m: Agent, commands: seq<ServerCommand>): (Agent, Outcome)
    requires w.maxAttempts > 0
    decreases Level(true), 0, |commands|
  {
    if commands == [] then (m, Fine)
    else
      var (done, outcome) := Handle(w, m, commands[0]);
      if outcome != Fine then (done, outcome)
      else
        var ok := w.ack(|done.log|);
        var acked := Log(done, AckSent(commands[0].id, ok));
        if ok then HandleAll(w, acked, commands[1..]) else (acked, TransportError)
  }

  function Handle(w: World, m: Agent, c: ServerCommand): (Agent, Outcome)
    requires w.maxAttempts > 0
    decreases Level(true), 0, 0
  {
    var now := w.clock(|m.log|);
    if !Valid(w, c, now) then (m, InvalidCommand)
    else
      var validated := Log(m, Validated(c, now));
      if c.id in m.handled then (validated, Fine)
      else
        var (done, outcome) := RunOnce(w, validated, false);
        if outcome != Fine then (done, outcome)
        else (Agent(done.handled + {c.id}, done.log + [Refreshed(c.id)]), Fine)
  }

  function Retry(w: World, m: Agent, processCommands: bool, left: nat): (Agent, Outcome)
    requires left > 0 && w.maxAttempts > 0
    decreases Level(processCommands), 2, left
  {
    var (done, outcome) := SendOnce(w, m, processCommands);
    if outcome != TransportError || left == 1 then (done, outcome)
    else Retry(w, done, processCommands, left - 1)
  }

  function RunOnce(w: World, m: Agent, processCommands: bool): (Agent, Outcome)
    requires w.maxAttempts > 0
    decreases Level(processCommands), 3, 0
  {
    Retry(w, m, processCommands, w.maxAttempts)
  }
}
