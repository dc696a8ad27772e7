// The station registry: stations, their agents, one-time tokens and pending commands in one database.
module Lifecycle {
  import opened Text
  import C = AgentCommands

  // Hashing is injective: a digest stands for exactly one secret.
  datatype Digest = Digest(secret: nat)

  datatype Role = Admin | Client

  datatype StationState = Online | Stale | Offline | Disabled

  datatype Station = Station(role: Role, state: StationState, enabled: bool, deletedAt: Option<int>)

  datatype Agent = Agent(id: nat, station: nat, uuid: nat, credential: Digest, revokedAt: Option<int>)

  // Enrollment tokens name a station, provisioning tokens do not.
  datatype Token = Token(hash: Digest, station: Option<nat>, expiresAt: int, usedAt: Option<int>, revokedAt: Option<int>)

  datatype Db = Db(stations: map<nat, Station>, agents: seq<Agent>, commands: seq<C.Command>,
                   enrollment: seq<Token>, provisioning: seq<Token>)

  datatype Outcome = Done | Rejected | Conflict | NotFound | Unauthorized | Integrity

  const ENROLLMENT_TOKEN_TTL := 600 * C.SECOND
  const PROVISIONING_TOKEN_TTL := 900 * C.SECOND
  const CLOCK_SKEW := 300 * C.SECOND

  function First<T>(s: seq<T>, p: T -> bool): (at: Option<nat>)
    ensures at.Some? ==> at.value < |s| && p(s[at.value])
    ensures at == None ==> forall i | 0 <= i < |s| :: !p(s[i])
  {
    if s == [] then None
    else
      var last := |s| - 1;
      var before := First(s[..last], p);
      if before.Some? then before else if p(s[last]) then Some(last) else None
  }

  function Keep<T(!new)>(s: seq<T>, p: T -> bool): (kept: seq<T>)
    ensures forall x :: x in kept <==> x in s && p(x)
  {
    if s == [] then []
    else
      var last := |s| - 1;
      assert s == s[..last] + [s[last]];
      if p(s[last]) then Keep(s[..last], p) + [s[last]] else Keep(s[..last], p)
  }

  // ---- Tables ----

  predicate Usable(t: Token, now: int) {
    t.usedAt == None && t.revokedAt == None && now < t.expiresAt
  }

  // consume: the position of the token with this digest, if it may be claimed now.
  function Claimable(tokens: seq<Token>, hash: Digest, now: int): (at: Option<nat>)
    ensures at.Some? ==> at.value < |tokens| && tokens[at.value].hash == hash && Usable(tokens[at.value], now)
  {
    var at := First(tokens, (t: Token) => t.hash == hash);
    if at.Some? && Usable(tokens[at.value], now) then at else None
  }

  function Spend(tokens: seq<Token>, at: nat, now: int): seq<Token>
    requires at < |tokens|
  {
    tokens[at := tokens[at].(usedAt := Some(now))]
  }

  function ByCredential(db: Db, hash: Digest): (agent: Option<Agent>)
    ensures agent.Some? ==> agent.value in db.agents && agent.value.credential == hash && agent.value.station in db.stations
  {
    var at := First(db.agents, (a: Agent) => a.credential == hash && a.station in db.stations);
    if at.Some? then Some(db.agents[at.value]) else None
  }

  function ByUuid(db: Db, uuid: nat): (agent: Option<Agent>)
    ensures agent.Some? ==> agent.value in db.agents && agent.value.uuid == uuid && agent.value.station in db.stations
    ensures agent == None ==> forall a | a in db.agents :: a.uuid != uuid || a.station !in db.stations
  {
    var at := First(db.agents, (a: Agent) => a.uuid == uuid && a.station in db.stations);
    if at.Some? then Some(db.agents[at.value]) else None
  }

  function ByStation(db: Db, station: nat): (agent: Option<Agent>)
    ensures agent.Some? ==> agent.value in db.agents && agent.value.station == station && station in db.stations
    ensures agent == None ==> forall a | a in db.agents :: a.station != station || a.station !in db.stations
  {
    var at := First(db.agents, (a: Agent) => a.station == station && a.station in db.stations);
    if at.Some? then Some(db.agents[at.value]) else None
  }

  predicate CanAccept(db: Db, a: Agent) {
    a.station in db.stations && a.revokedAt == None
    && db.stations[a.station].enabled && db.stations[a.station].deletedAt == None
  }

  predicate Active(db: Db, station: nat) {
    station in db.stations && db.stations[station].deletedAt == None
  }

  // The binding a credential may act for.
  function Authorized(db: Db, credential: nat): (agent: Option<Agent>)
    ensures agent.Some? ==> agent.value in db.agents && agent.value.credential == Digest(credential) && CanAccept(db, agent.value)
  {
    var agent := ByCredential(db, Digest(credential));
    if agent.Some? && CanAccept(db, agent.value) then agent else None
  }

  predicate AgentsApart(agents: seq<Agent>) {
    forall i, j | 0 <= i < j < |agents| ::
      agents[i].id != agents[j].id && agents[i].uuid != agents[j].uuid && agents[i].station != agents[j].station
  }

  predicate HashesApart(tokens: seq<Token>) {
    forall i, j | 0 <= i < j < |tokens| :: tokens[i].hash != tokens[j].hash
  }

  // What the database itself refuses at commit.
  predicate Constraints(db: Db) {
    AgentsApart(db.agents) && HashesApart(db.enrollment) && HashesApart(db.provisioning)
  }

  function Commit(db: Db, session: Db): (r: (Db, Outcome))
    ensures r.1.Done? <==> Constraints(session)
    ensures r.0 == if r.1.Done? then session else db
  {
    if Constraints(session) then (session, Done) else (db, Integrity)
  }

  // ---- Use cases: the database after, and what the caller is told ----

  function Create(db: Db, station: nat, role: Role, token: nat, now: int): (Db, Outcome) {
    if Active(db, station) then (db, Conflict)
    else
      var t := Token(Digest(token), Some(station), now + ENROLLMENT_TOKEN_TTL, None, None);
      Commit(db, db.(stations := db.stations[station := Station(role, Offline, true, None)],
                     enrollment := db.enrollment + [t]))
  }

  function NewProvisioning(db: Db, token: nat, now: int): (Db, Outcome) {
    Commit(db, db.(provisioning := db.provisioning + [Token(Digest(token), None, now + PROVISIONING_TOKEN_TTL, None, None)]))
  }

  function Update(db: Db, station: nat, role: Role, enabled: bool): (Db, Outcome) {
    if !Active(db, station) then (db, NotFound)
    else
      var s := db.stations[station];
      var state := if enabled && s.state == Disabled then Offline else if !enabled then Disabled else s.state;
      Commit(db, db.(stations := db.stations[station := s.(role := role, enabled := enabled, state := state)]))
  }

  function Revoke(tokens: seq<Token>, station: nat, now: int): (r: seq<Token>)
    ensures |r| == |tokens|
  {
    seq(|tokens|, i requires 0 <= i < |tokens| =>
      if tokens[i].station == Some(station) && tokens[i].revokedAt == None then tokens[i].(revokedAt := Some(now))
      else tokens[i])
  }

  function AgentIds(agents: seq<Agent>, station: nat): set<nat> {
    set a | a in agents && a.station == station :: a.id
  }

  // Deletion hides the station and removes its agent and the agent's commands, and revokes its tokens.
  function Cascade(db: Db, station: nat, now: int): Db
    requires station in db.stations
  {
    var gone := AgentIds(db.agents, station);
    Db(db.stations[station := db.stations[station].(state := Disabled, enabled := false, deletedAt := Some(now))],
       Keep(db.agents, (a: Agent) => a.station != station),
       Keep(db.commands, (c: C.Command) => c.agent !in gone),
       Revoke(db.enrollment, station, now),
       db.provisioning)
  }

  function Delete(db: Db, station: nat, now: int): (Db, Outcome) {
    if !Active(db, station) then (db, NotFound) else Commit(db, Cascade(db, station, now))
  }

  function Enroll(db: Db, token: nat, uuid: nat, credential: nat, id: nat, now: int): (Db, Outcome) {
    var at := Claimable(db.enrollment, Digest(token), now);
    if at == None then (db, Rejected)
    else
      var station := db.enrollment[at.value].station;
      if station == None || station.value !in db.stations then (db, Rejected)
      else
        Commit(db, db.(enrollment := Spend(db.enrollment, at.value, now),
                       agents := db.agents + [Agent(id, station.value, uuid, Digest(credential), None)]))
  }

  // The station after a bootstrap, unless the bootstrap conflicts with it.
  function BootstrapStation(db: Db, station: nat, role: Role): Option<Station> {
    if !Active(db, station) then Some(Station(role, Offline, true, None))
    else if db.stations[station].role != role || ByStation(db, station).Some? then None
    else Some(db.stations[station])
  }

  function Bootstrap(db: Db, token: nat, station: nat, role: Role, uuid: nat, credential: nat, id: nat, now: int)
    : (Db, Outcome)
  {
    if role != Client || station != uuid then (db, Rejected)
    else
      var at := Claimable(db.provisioning, Digest(token), now);
      if at == None then (db, Rejected)
      else if ByUuid(db, uuid).Some? then (db, Conflict)
      else
        var s := BootstrapStation(db, station, role);
        if s == None then (db, Conflict)
        else
          Commit(db, db.(stations := db.stations[station := s.value],
                         provisioning := Spend(db.provisioning, at.value, now),
                         agents := db.agents + [Agent(id, station, uuid, Digest(credential), None)]))
  }

  function Heartbeat(db: Db, credential: nat, station: nat, capturedAt: int, now: int): (Db, Outcome) {
    if now - capturedAt > CLOCK_SKEW || capturedAt - now > CLOCK_SKEW then (db, Rejected)
    else
      var agent := Authorized(db, credential);
      if agent == None || agent.value.station != station then (db, Unauthorized)
      else
        Commit(db, db.(stations := db.stations[station := db.stations[station].(state := Online)],
                       commands := C.Claim(db.commands, agent.value.id, now, C.COMMAND_LEASE, C.BATCH_SIZE)))
  }

  function Issue(db: Db, uuid: nat, name: string, ttl: int, id: nat, now: int): (Db, Outcome) {
    if name != "refresh_process_snapshot" || ttl <= 0 || ttl > C.MAX_COMMAND_TTL then (db, Rejected)
    else
      var agent := ByUuid(db, uuid);
      if agent == None || !CanAccept(db, agent.value) then (db, NotFound)
      else
        Commit(db, db.(commands := db.commands + [C.Command(id, agent.value.id, now + ttl, C.Pending, None, 0)]))
  }

  function Acknowledge(db: Db, credential: nat, id: nat, now: int): (Db, Outcome) {
    var agent := Authorized(db, credential);
    if agent == None then (db, Unauthorized)
    else
      var (rows, ok) := C.AckRows(db.commands, agent.value.id, id, now);
      if !ok then (db, Rejected) else Commit(db, db.(commands := rows))
  }
}
