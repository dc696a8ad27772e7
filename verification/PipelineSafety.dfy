// The pipeline as a system: transactions, relayed messages and worker deliveries in any order.
module PipelineSafety {
  import opened Text
  import opened Naming
  import opened PublishJobs
  import opened Storage
  import opened Pipeline
  import Artifacts
  import PublishRun
  import PublishResults

  // A delivery has read the job and its targets; once the workflow finished it holds its outcome.
  datatype Delivery = Delivery(job: Job, targets: seq<JobTarget>, outcome: Option<PublishRun.Outcome>)

  // `messages` is the queue; a message is never used up, so it may be delivered any number of times.
  datatype System = System(db: Db, messages: seq<Event>, deliveries: map<HexId, Delivery>, world: World)

  datatype Action =
    | DoCreate(newId: HexId, key: string, correlation: nat, request: Request, stationIds: seq<nat>,
               rows: map<nat, StationRow>)
    | DoPrepare(job: HexId, seen: seq<JobTarget>, admin: Option<CheckStatus>, reports: map<nat, CheckStatus>,
                confirmation: Option<bool>)
    | DoDispatch(job: HexId)
    | DoRelay(event: nat)
    | DoLoad(message: nat)
    | DoRun(job: HexId, faults: seq<Fault>, registry: map<nat, PublishRun.Station>)
    | DoPersist(job: HexId, now: int, gone: set<nat>)
    | DoAbandon(job: HexId)

  function StationsFor(ids: seq<nat>, registry: map<nat, PublishRun.Station>): Option<seq<PublishRun.Station>> {
    if exists id | id in ids :: id !in registry then None
    else Some(seq(|ids|, i requires 0 <= i < |ids| => registry[ids[i]]))
  }

  function Load(s: System, m: Event): System {
    if m.job !in s.db.jobs || m.job !in s.db.targets || m.job in s.deliveries then s
    else
      var job, targets := s.db.jobs[m.job], s.db.targets[m.job];
      if job.key != m.key || job.correlation != m.correlation then s
      else if Terminal(job.status) || SelectedStations(targets) == [] then s
      else s.(deliveries := s.deliveries[m.job := Delivery(job, targets, None)])
  }

  function Run(s: System, id: HexId, faults: seq<Fault>, registry: map<nat, PublishRun.Station>): System {
    if id !in s.deliveries || s.deliveries[id].outcome.Some? then s
    else
      var d := s.deliveries[id];
      var stations := StationsFor(SelectedStations(d.targets), registry);
      if stations == None then s.(deliveries := s.deliveries - {id})
      else
        var (outcome, world) :=
          PublishRun.Execute(s.world.(faults := faults), d.job, stations.value, d.job.confirmation == Some(true));
        s.(world := world,
           deliveries := if outcome.Finished? then s.deliveries[id := d.(outcome := Some(outcome))]
                         else s.deliveries - {id})
  }

  function Finish(s: System, id: HexId, now: int, gone: set<nat>): System {
    if id !in s.deliveries || s.deliveries[id].outcome.None? || !s.deliveries[id].outcome.value.Finished? then s
    else
      var d := s.deliveries[id];
      var o := d.outcome.value;
      s.(db := PersistResult(s.db, d.job, d.targets, o.job, o.master, o.targets, now, gone).1,
         deliveries := s.deliveries - {id})
  }

  function Step(s: System, a: Action): System {
    match a
    case DoCreate(newId, key, correlation, request, stationIds, rows) =>
      s.(db := Create(s.db, newId, key, correlation, request, stationIds, rows).1)
    case DoPrepare(job, seen, admin, reports, confirmation) =>
      s.(db := PrepareCommit(s.db, job, seen, admin, reports, confirmation).1)
    case DoDispatch(job) => s.(db := Dispatch(s.db, job).1)
    case DoRelay(event) =>
      if event < |s.db.events| then s.(messages := s.messages + [s.db.events[event]]) else s
    case DoLoad(message) => if message < |s.messages| then Load(s, s.messages[message]) else s
    case DoRun(job, faults, registry) => Run(s, job, faults, registry)
    case DoPersist(job, now, gone) => Finish(s, job, now, gone)
    case DoAbandon(job) => s.(deliveries := s.deliveries - {job})
  }

  // ---- the invariant ----

  predicate Reached(status: JobStatus) { Rank(status) >= Rank(Publishing) }

  function CountFor(events: seq<Event>, id: HexId): nat {
    if events == [] then 0
    else CountFor(events[..|events| - 1], id) + if events[|events| - 1].job == id then 1 else 0
  }

  // A dispatched job is confirmed, selects a station, and every selected one passed its preflight.
  predicate Cleared(job: Job, targets: seq<JobTarget>) {
    && job.confirmation == Some(true)
    && (exists t | t in targets :: t.selected)
    && (forall t | t in targets && t.selected :: Passing(t))
  }

  predicate JobOk(db: Db, id: HexId)
    requires id in db.jobs && id in db.targets
  {
    var job := db.jobs[id];
    && job.id == id && job.status !in {Switching, Verifying}
    && CountFor(db.events, id) == (if Reached(job.status) then 1 else 0)
    && (Reached(job.status) ==> Cleared(job, db.targets[id]))
  }

  // The key index and the job table refer to each other.
  predicate KeysOk(db: Db) {
    && (forall key | key in db.keys :: db.keys[key] in db.jobs && db.jobs[db.keys[key]].key == key)
    && (forall id | id in db.jobs :: db.jobs[id].key in db.keys && db.keys[db.jobs[id].key] == id)
  }

  predicate JobsOk(db: Db) {
    && db.jobs.Keys == db.targets.Keys
    && forall id | id in db.jobs :: id in db.targets && JobOk(db, id)
  }

  predicate EventsOk(db: Db) {
    forall k | 0 <= k < |db.events| :: db.events[k].job in db.jobs
  }

  predicate DbOk(db: Db) { KeysOk(db) && JobsOk(db) && EventsOk(db) }

  ghost predicate DeliveryOk(db: Db, id: HexId, d: Delivery) {
    && id in db.jobs && id in db.targets
    && d.job == db.jobs[id] && d.targets == db.targets[id] && d.job.status == Publishing
    && (d.outcome.Some? ==>
          && d.outcome.value.Finished?
          && d.outcome.value.job
             == d.job.(status := d.outcome.value.job.status, reason := d.outcome.value.job.reason)
          && Terminal(d.outcome.value.job.status))
  }

  // Every message stems from an event.
  predicate MessagesOk(db: Db, messages: seq<Event>) {
    forall k | 0 <= k < |messages| :: CountFor(db.events, messages[k].job) >= 1
  }

  ghost predicate DeliveriesOk(db: Db, deliveries: map<HexId, Delivery>) {
    forall id | id in deliveries :: DeliveryOk(db, id, deliveries[id])
  }

  ghost predicate SystemOk(s: System) {
    DbOk(s.db) && MessagesOk(s.db, s.messages) && DeliveriesOk(s.db, s.deliveries)
  }

  predicate Allowed(s: System, a: Action) {
    a.DoCreate? ==> a.newId !in s.db.jobs
  }

  // Stored jobs only ever move along the status table, and none disappears.
  ghost predicate MovesForward(before: Db, after: Db) {
    forall id :: Moves(before, after, id)
  }

  ghost predicate Moves(before: Db, after: Db, id: HexId) {
    id in before.jobs ==> id in after.jobs && CanReach(before.jobs[id].status, after.jobs[id].status)
  }

  // ---- each action ----

  lemma Stays(status: JobStatus)
    ensures CanReach(status, status)
  {
    ReachBy([status]);
  }

  lemma {:induction false} CountZero(events: seq<Event>, id: HexId)
    ensures CountFor(events, id) == 0 <==> forall k | 0 <= k < |events| :: events[k].job != id
  {
    if events != [] {
      CountZero(events[..|events| - 1], id);
    }
  }

  // Jobs that reached PUBLISHING, and everything about them, are as before.
  predicate ReachedKept(before: Db, after: Db) {
    forall j | j in before.jobs && Reached(before.jobs[j].status) ::
      && j in after.jobs && after.jobs[j] == before.jobs[j]
      && j in after.targets && j in before.targets && after.targets[j] == before.targets[j]
  }

  // A transaction that rewrites one job, its targets and possibly adds its event.
  predicate ChangesOne(db: Db, after: Db, id: HexId, job: Job, targets: seq<JobTarget>) {
    && id in db.jobs && job.key == db.jobs[id].key
    && after.jobs == db.jobs[id := job] && after.targets == db.targets[id := targets] && after.keys == db.keys
    && (after.events == db.events
        || (|after.events| == |db.events| + 1 && after.events[..|db.events|] == db.events
            && after.events[|db.events|].job == id))
  }

  lemma OneChangeOk(db: Db, after: Db, id: HexId, job: Job, targets: seq<JobTarget>)
    requires DbOk(db) && ChangesOne(db, after, id, job, targets)
    requires JobOk(after, id) && CanReach(db.jobs[id].status, job.status)
    ensures DbOk(after) && MovesForward(db, after)
    ensures !Reached(db.jobs[id].status) ==> ReachedKept(db, after)
    ensures forall j | j in db.jobs :: CountFor(db.events, j) <= CountFor(after.events, j)
  {
    OneChangeIndexes(db, after, id, job, targets);
    OneChangeJobs(db, after, id, job, targets);
    OneChangeMoves(db, after, id, job);
    OneChangeKept(db, after, id, job, targets);
    OneChangeCounts(db, after, id, job, targets);
  }

  lemma OneChangeKept(db: Db, after: Db, id: HexId, job: Job, targets: seq<JobTarget>)
    requires db.jobs.Keys == db.targets.Keys && ChangesOne(db, after, id, job, targets)
    ensures !Reached(db.jobs[id].status) ==> ReachedKept(db, after)
  {
  }

  lemma OneChangeCounts(db: Db, after: Db, id: HexId, job: Job, targets: seq<JobTarget>)
    requires ChangesOne(db, after, id, job, targets)
    ensures forall j | j in db.jobs :: CountFor(db.events, j) <= CountFor(after.events, j)
  {
    forall j | j in db.jobs ensures CountFor(db.events, j) <= CountFor(after.events, j) {
      CountGrows(db.events, after.events, j);
    }
  }

  lemma OneChangeIndexes(db: Db, after: Db, id: HexId, job: Job, targets: seq<JobTarget>)
    requires KeysOk(db) && EventsOk(db) && ChangesOne(db, after, id, job, targets)
    ensures KeysOk(after) && EventsOk(after)
  {
  }

  lemma OneChangeMoves(db: Db, after: Db, id: HexId, job: Job)
    requires id in db.jobs && after.jobs == db.jobs[id := job] && CanReach(db.jobs[id].status, job.status)
    ensures MovesForward(db, after)
  {
    forall j ensures Moves(db, after, j) {
      if j in db.jobs { Stays(db.jobs[j].status); }
    }
  }

  lemma OneChangeJobs(db: Db, after: Db, id: HexId, job: Job, targets: seq<JobTarget>)
    requires JobsOk(db) && ChangesOne(db, after, id, job, targets) && JobOk(after, id)
    ensures JobsOk(after)
  {
    assert after.jobs.Keys == after.targets.Keys;
    forall j | j in after.jobs ensures j in after.targets && JobOk(after, j) {
      if j != id {
        OtherCount(db, after, id, job, targets, j);
        JobUntouched(db, after, j);
      }
    }
  }

  lemma OtherCount(db: Db, after: Db, id: HexId, job: Job, targets: seq<JobTarget>, other: HexId)
    requires ChangesOne(db, after, id, job, targets) && other != id
    ensures CountFor(after.events, other) == CountFor(db.events, other)
  {
    if after.events != db.events {
      assert after.events[..|after.events| - 1] == db.events;
    }
  }

  // A transaction that stores a new draft.
  predicate AddsOne(db: Db, after: Db, job: Job, targets: seq<JobTarget>) {
    && job.id !in db.jobs && job.key !in db.keys && job.status == Draft
    && after.jobs == db.jobs[job.id := job] && after.targets == db.targets[job.id := targets]
    && after.keys == db.keys[job.key := job.id] && after.events == db.events
  }

  lemma AddedIndexes(db: Db, after: Db, job: Job, targets: seq<JobTarget>)
    requires KeysOk(db) && EventsOk(db) && AddsOne(db, after, job, targets)
    ensures KeysOk(after) && EventsOk(after)
  {
  }

  lemma AddedJobs(db: Db, after: Db, job: Job, targets: seq<JobTarget>)
    requires JobsOk(db) && EventsOk(db) && AddsOne(db, after, job, targets)
    ensures JobsOk(after)
  {
    assert after.jobs.Keys == after.targets.Keys;
    CountZero(db.events, job.id);
    forall j | j in after.jobs ensures j in after.targets && JobOk(after, j) {
      if j != job.id {
        JobUntouched(db, after, j);
      }
    }
  }

  lemma JobUntouched(db: Db, after: Db, id: HexId)
    requires id in db.jobs && id in db.targets && JobOk(db, id)
    requires id in after.jobs && id in after.targets && after.jobs[id] == db.jobs[id]
    requires after.targets[id] == db.targets[id] && CountFor(after.events, id) == CountFor(db.events, id)
    ensures JobOk(after, id)
  {
  }

  lemma AddedMoves(db: Db, after: Db, job: Job)
    requires job.id !in db.jobs && after.jobs == db.jobs[job.id := job]
    ensures MovesForward(db, after)
  {
    forall j ensures Moves(db, after, j) {
      if j in db.jobs { Stays(db.jobs[j].status); }
    }
  }

  lemma AddedJobOk(db: Db, after: Db, job: Job, targets: seq<JobTarget>)
    requires DbOk(db) && AddsOne(db, after, job, targets)
    ensures DbOk(after) && MovesForward(db, after) && ReachedKept(db, after)
  {
    AddedIndexes(db, after, job, targets);
    AddedJobs(db, after, job, targets);
    AddedMoves(db, after, job);
  }

  lemma Unchanged(db: Db)
    requires DbOk(db)
    ensures MovesForward(db, db) && ReachedKept(db, db)
  {
    forall j ensures Moves(db, db, j) {
      if j in db.jobs { Stays(db.jobs[j].status); }
    }
  }

  lemma CreateOk(db: Db, id: HexId, key: string, correlation: nat, request: Request, stationIds: seq<nat>,
                 rows: map<nat, StationRow>)
    requires DbOk(db) && id !in db.jobs
    ensures var after := Create(db, id, key, correlation, request, stationIds, rows).1;
            DbOk(after) && MovesForward(db, after) && ReachedKept(db, after) && after.events == db.events
  {
    Unchanged(db);
    var (r, after) := Create(db, id, key, correlation, request, stationIds, rows);
    if r.Created? {
      AddedJobOk(db, after, Job(id, key, correlation, request, Draft, None, None), FreshTargets(stationIds));
    }
  }

  lemma UpdateJobMoves(job: Job, reasons: seq<Reason>, confirmation: Option<bool>)
    requires AcceptsPreflight(job.status)
    ensures var u := UpdateJob(job, reasons, confirmation);
            && u.Some? && CanReach(job.status, u.value.status) && AcceptsPreflight(u.value.status)
            && u.value.id == job.id && u.value.key == job.key
            && (u.value.status == AwaitingConfirmation <==>
                  job.status == AwaitingConfirmation || PreflightReady(reasons))
  {
    Stays(job.status);
    ReachBy([Draft, Preflight]);
    ReachBy([Preflight, AwaitingConfirmation]);
    ReachBy([Draft, Preflight, AwaitingConfirmation]);
  }

  // What the second transaction of prepare does: it stores the moved job, or nothing.
  lemma PrepareChanges(db: Db, id: HexId, seen: seq<JobTarget>, admin: Option<CheckStatus>,
                       reports: map<nat, CheckStatus>, confirmation: Option<bool>)
    requires id in db.jobs ==> id in db.targets && db.jobs[id].id == id
    ensures var (r, after) := PrepareCommit(db, id, seen, admin, reports, confirmation);
            && !r.IllegalMove? && (!r.Prepared? ==> after == db)
            && (r.Prepared? ==> PreparesOne(db, after, id, r.job, reports))
  {
    if id in db.jobs && AcceptsPreflight(db.jobs[id].status) {
      var job, reasons := db.jobs[id], GateReasons(admin, reports, SelectedStations(seen), confirmation);
      UpdateJobMoves(job, reasons, confirmation);
      StoredPrepared(db, id, UpdateJob(job, reasons, confirmation).value, reports);
    }
  }

  ghost predicate PreparesOne(db: Db, after: Db, id: HexId, job: Job, reports: map<nat, CheckStatus>) {
    && id in db.jobs && id in db.targets && AcceptsPreflight(db.jobs[id].status)
    && AcceptsPreflight(job.status) && job.id == id && CanReach(db.jobs[id].status, job.status)
    && after.events == db.events && ChangesOne(db, after, id, job, WithPreflights(db.targets[id], reports))
  }

  lemma StoredPrepared(db: Db, id: HexId, job: Job, reports: map<nat, CheckStatus>)
    requires id in db.jobs && id in db.targets && AcceptsPreflight(db.jobs[id].status)
    requires AcceptsPreflight(job.status) && job.id == id && job.key == db.jobs[id].key
    requires CanReach(db.jobs[id].status, job.status)
    ensures var (r, after) := StorePrepared(db, id, Some(job), reports);
            r == Prepared(job) && PreparesOne(db, after, id, job, reports)
  {
  }

  lemma PrepareOk(db: Db, id: HexId, seen: seq<JobTarget>, admin: Option<CheckStatus>,
                  reports: map<nat, CheckStatus>, confirmation: Option<bool>)
    requires DbOk(db)
    ensures var (r, after) := PrepareCommit(db, id, seen, admin, reports, confirmation);
            && DbOk(after) && after.events == db.events && MovesForward(db, after) && ReachedKept(db, after)
            && (r.Prepared? || after == db) && !r.IllegalMove?
  {
    if id in db.jobs { StoredOk(db, id); }
    PrepareChanges(db, id, seen, admin, reports, confirmation);
    var (r, after) := PrepareCommit(db, id, seen, admin, reports, confirmation);
    if r.Prepared? {
      PreparedOk(db, after, id, r.job, WithPreflights(db.targets[id], reports));
    } else {
      Unchanged(db);
    }
  }

  lemma PreparedOk(db: Db, after: Db, id: HexId, job: Job, targets: seq<JobTarget>)
    requires DbOk(db) && ChangesOne(db, after, id, job, targets) && after.events == db.events
    requires AcceptsPreflight(db.jobs[id].status) && AcceptsPreflight(job.status) && job.id == id
    requires CanReach(db.jobs[id].status, job.status)
    ensures DbOk(after) && MovesForward(db, after) && ReachedKept(db, after)
  {
    PreparedJobOk(db, after, id, job, targets);
    assert !Reached(db.jobs[id].status);
    OneChangeOk(db, after, id, job, targets);
  }

  lemma PreparedJobOk(db: Db, after: Db, id: HexId, job: Job, targets: seq<JobTarget>)
    requires JobsOk(db) && ChangesOne(db, after, id, job, targets) && after.events == db.events
    requires AcceptsPreflight(db.jobs[id].status) && AcceptsPreflight(job.status) && job.id == id
    ensures JobOk(after, id)
  {
    StoredOk(db, id);
    UndispatchedOk(db, after, id);
  }

  lemma StoredOk(db: Db, id: HexId)
    requires JobsOk(db) && id in db.jobs
    ensures id in db.targets && JobOk(db, id)
  {
  }

  // An undispatched job has no event, and needs no clearance.
  lemma UndispatchedOk(db: Db, after: Db, id: HexId)
    requires id in db.jobs && id in db.targets && JobOk(db, id) && AcceptsPreflight(db.jobs[id].status)
    requires id in after.jobs && id in after.targets && after.jobs[id].id == id
    requires AcceptsPreflight(after.jobs[id].status) && after.events == db.events
    ensures JobOk(after, id)
  {
  }

  lemma DispatchOk(db: Db, id: HexId)
    requires DbOk(db)
    ensures var (sent, after) := Dispatch(db, id);
            && DbOk(after) && MovesForward(db, after) && ReachedKept(db, after)
            && (forall j | j in db.jobs :: CountFor(db.events, j) <= CountFor(after.events, j))
            && (sent <==> id in db.jobs && id in db.targets && Dispatchable(db.jobs[id], db.targets[id]))
  {
    var (sent, after) := Dispatch(db, id);
    if sent {
      var job := db.jobs[id].(status := Publishing, reason := None);
      assert after.targets == db.targets[id := db.targets[id]];
      DispatchedOk(db, after, id, job);
    } else {
      Unchanged(db);
    }
  }

  lemma DispatchedOk(db: Db, after: Db, id: HexId, job: Job)
    requires DbOk(db) && id in db.jobs && id in db.targets && Dispatchable(db.jobs[id], db.targets[id])
    requires job == db.jobs[id].(status := Publishing, reason := None)
    requires after == db.(jobs := db.jobs[id := job], events := db.events + [Event(id, job.correlation, job.key)])
    ensures DbOk(after) && MovesForward(db, after) && ReachedKept(db, after)
    ensures forall j | j in db.jobs :: CountFor(db.events, j) <= CountFor(after.events, j)
  {
    assert JobOk(db, id);
    assert after.targets == db.targets[id := db.targets[id]];
    assert after.events[..|db.events|] == db.events;
    ReachBy([AwaitingConfirmation, Publishing]);
    OneChangeOk(db, after, id, job, db.targets[id]);
  }

  lemma {:induction false} ResultsKeepClearance(targets: seq<JobTarget>, results: seq<TargetResult>)
    ensures var after := WithResults(targets, results);
            && |after| == |targets|
            && forall k | 0 <= k < |targets| ::
                 after[k].station == targets[k].station && after[k].selected == targets[k].selected
                 && after[k].preflight == targets[k].preflight
  {
    if results != [] {
      ResultsKeepClearance(targets, results[..|results| - 1]);
    }
  }

  lemma ClearanceKept(job: Job, job': Job, targets: seq<JobTarget>, results: seq<TargetResult>)
    requires Cleared(job, targets) && job'.confirmation == job.confirmation
    ensures Cleared(job', WithResults(targets, results))
  {
    ResultsKeepClearance(targets, results);
    var after := WithResults(targets, results);
    var t :| t in targets && t.selected;
    var k :| 0 <= k < |targets| && targets[k] == t;
    assert after[k] in after;
    forall u | u in after && u.selected ensures Passing(u) {
      var j :| 0 <= j < |after| && after[j] == u;
      assert targets[j] in targets;
    }
  }

  lemma PersistOk(db: Db, id: HexId, d: Delivery, now: int, gone: set<nat>)
    requires DbOk(db) && DeliveryOk(db, id, d) && d.outcome.Some?
    ensures var o := d.outcome.value;
            var (committed, after) := PersistResult(db, d.job, d.targets, o.job, o.master, o.targets, now, gone);
            && (committed <==> AllRegistered(d.job, o.targets, gone)) && (!committed ==> after == db)
            && DbOk(after) && MovesForward(db, after) && after.events == db.events
            && after.jobs == (if committed then db.jobs[id := o.job] else db.jobs)
            && (forall j | j in db.targets && j != id :: j in after.targets && after.targets[j] == db.targets[j])
  {
    var o := d.outcome.value;
    var after := PersistResult(db, d.job, d.targets, o.job, o.master, o.targets, now, gone).1;
    PersistChanges(db, id, d, now, gone);
    if AllRegistered(d.job, o.targets, gone) {
      PersistedJobOk(db, after, id, d);
      PublishResults.PublishingReaches(o.job.status);
      OneChangeOk(db, after, id, o.job, WithResults(d.targets, o.targets));
    } else {
      Unchanged(db);
    }
  }

  lemma PersistChanges(db: Db, id: HexId, d: Delivery, now: int, gone: set<nat>)
    requires DbOk(db) && DeliveryOk(db, id, d) && d.outcome.Some?
    ensures var o := d.outcome.value;
            var (committed, after) := PersistResult(db, d.job, d.targets, o.job, o.master, o.targets, now, gone);
            && (committed <==> AllRegistered(d.job, o.targets, gone)) && (!committed ==> after == db)
            && after.events == db.events
            && (committed ==> ChangesOne(db, after, id, o.job, WithResults(d.targets, o.targets)))
  {
    assert JobOk(db, id);
  }

  lemma PersistedJobOk(db: Db, after: Db, id: HexId, d: Delivery)
    requires DbOk(db) && DeliveryOk(db, id, d) && d.outcome.Some? && after.events == db.events
    requires ChangesOne(db, after, id, d.outcome.value.job, WithResults(d.targets, d.outcome.value.targets))
    ensures JobOk(after, id)
  {
    assert JobOk(db, id);
    PublishedJobOk(db, after, id, d.outcome.value.job, d.outcome.value.targets);
  }

  lemma PublishedJobOk(db: Db, after: Db, id: HexId, job: Job, results: seq<TargetResult>)
    requires id in db.jobs && id in db.targets && JobOk(db, id) && db.jobs[id].status == Publishing
    requires job.id == id && job.confirmation == db.jobs[id].confirmation && Terminal(job.status)
    requires id in after.jobs && id in after.targets && after.events == db.events
    requires after.jobs[id] == job && after.targets[id] == WithResults(db.targets[id], results)
    ensures JobOk(after, id)
  {
    ClearanceKept(db.jobs[id], job, db.targets[id], results);
  }

  lemma RunOk(s: System, id: HexId, faults: seq<Fault>, registry: map<nat, PublishRun.Station>)
    requires SystemOk(s)
    ensures SystemOk(Run(s, id, faults, registry)) && Run(s, id, faults, registry).db == s.db
    ensures Run(s, id, faults, registry).world.storage != s.world.storage
            || Run(s, id, faults, registry).world.log != s.world.log ==>
              id in s.db.jobs && id in s.db.targets && s.db.jobs[id].status == Publishing
              && Cleared(s.db.jobs[id], s.db.targets[id])
  {
    if id in s.deliveries && s.deliveries[id].outcome.None? {
      var d := s.deliveries[id];
      assert DeliveryOk(s.db, id, d) && JobOk(s.db, id);
      var stations := StationsFor(SelectedStations(d.targets), registry);
      if stations.Some? {
        PublishResults.RunStatus(s.world.(faults := faults), d.job, stations.value, d.job.confirmation == Some(true));
      }
    }
  }

  // ---- the theorem ----

  // What one action may do, whatever the state it meets.
  ghost predicate Safe(s: System, a: Action, t: System) {
    && SystemOk(t) && MovesForward(s.db, t.db)
    // Storage is touched only by the run of a delivery whose job is stored as PUBLISHING and cleared.
    && (t.world.storage != s.world.storage || t.world.log != s.world.log ==>
          && a.DoRun? && a.job in s.db.jobs && a.job in s.db.targets
          && s.db.jobs[a.job].status == Publishing && Cleared(s.db.jobs[a.job], s.db.targets[a.job]))
    // A terminal job is left exactly as it is.
    && (forall id | id in s.db.jobs && Terminal(s.db.jobs[id].status) ::
          id in t.db.jobs && t.db.jobs[id] == s.db.jobs[id])
  }

  lemma DeliveriesKept(s: System, db: Db)
    requires DeliveriesOk(s.db, s.deliveries) && ReachedKept(s.db, db)
    ensures DeliveriesOk(db, s.deliveries)
  {
    forall id | id in s.deliveries ensures DeliveryOk(db, id, s.deliveries[id]) {
      assert DeliveryOk(s.db, id, s.deliveries[id]);
    }
  }

  lemma {:induction false} CountGrows(before: seq<Event>, after: seq<Event>, id: HexId)
    requires before <= after
    ensures CountFor(before, id) <= CountFor(after, id)
  {
    if |after| > |before| {
      CountGrows(before, after[..|after| - 1], id);
    } else {
      assert before == after;
    }
  }

  lemma LoadOk(s: System, m: Event)
    requires SystemOk(s) && CountFor(s.db.events, m.job) >= 1
    ensures SystemOk(Load(s, m)) && Load(s, m).db == s.db && Load(s, m).world == s.world
  {
    CountZero(s.db.events, m.job);
    if m.job in s.db.jobs { assert JobOk(s.db, m.job); }
  }

  lemma RelayOk(s: System, event: nat)
    requires SystemOk(s) && event < |s.db.events|
    ensures SystemOk(s.(messages := s.messages + [s.db.events[event]]))
  {
    CountZero(s.db.events, s.db.events[event].job);
  }

  lemma FinishOk(s: System, id: HexId, now: int, gone: set<nat>)
    requires SystemOk(s)
    ensures var t := Finish(s, id, now, gone);
            && SystemOk(t) && MovesForward(s.db, t.db)
            && (forall j | j in s.db.jobs && Terminal(s.db.jobs[j].status) ::
                  j in t.db.jobs && t.db.jobs[j] == s.db.jobs[j])
  {
    if id in s.deliveries && s.deliveries[id].outcome.Some? {
      var d := s.deliveries[id];
      var o := d.outcome.value;
      assert DeliveryOk(s.db, id, d);
      PersistOk(s.db, id, d, now, gone);
      var after := PersistResult(s.db, d.job, d.targets, o.job, o.master, o.targets, now, gone).1;
      OthersDeliver(s, id, after);
      assert Finish(s, id, now, gone) == s.(db := after, deliveries := s.deliveries - {id});
    } else {
      Unchanged(s.db);
    }
  }

  lemma OthersDeliver(s: System, id: HexId, db: Db)
    requires DeliveriesOk(s.db, s.deliveries) && id in s.db.jobs
    requires forall j | j in s.db.jobs && j != id :: j in db.jobs && db.jobs[j] == s.db.jobs[j]
    requires forall j | j in s.db.targets && j != id :: j in db.targets && db.targets[j] == s.db.targets[j]
    ensures DeliveriesOk(db, s.deliveries - {id})
  {
    forall j | j in s.deliveries - {id} ensures DeliveryOk(db, j, (s.deliveries - {id})[j]) {
      assert DeliveryOk(s.db, j, s.deliveries[j]);
    }
  }

  lemma MessagesKept(s: System, db: Db)
    requires EventsOk(s.db) && MessagesOk(s.db, s.messages)
    requires forall j | j in s.db.jobs :: CountFor(s.db.events, j) <= CountFor(db.events, j)
    ensures MessagesOk(db, s.messages)
  {
    forall k | 0 <= k < |s.messages| ensures CountFor(db.events, s.messages[k].job) >= 1 {
      CountZero(s.db.events, s.messages[k].job);
      assert CountFor(s.db.events, s.messages[k].job) >= 1;
    }
  }

  // A transaction that leaves dispatched jobs alone keeps the rest of the system in order.
  lemma TransactionSafe(s: System, a: Action, db: Db)
    requires SystemOk(s) && DbOk(db) && ReachedKept(s.db, db) && MovesForward(s.db, db)
    requires forall j | j in s.db.jobs :: CountFor(s.db.events, j) <= CountFor(db.events, j)
    ensures Safe(s, a, s.(db := db))
  {
    DeliveriesKept(s, db);
    MessagesKept(s, db);
  }

  lemma StepSafe(s: System, a: Action)
    requires SystemOk(s) && Allowed(s, a)
    ensures Safe(s, a, Step(s, a))
  {
    match a {
      case DoCreate(_, _, _, _, _, _) => CreateSafe(s, a);
      case DoPrepare(_, _, _, _, _) => PrepareSafe(s, a);
      case DoDispatch(_) => DispatchSafe(s, a);
      case DoRelay(_) => RelaySafe(s, a);
      case DoLoad(_) => LoadSafe(s, a);
      case DoRun(_, _, _) => RunSafe(s, a);
      case DoPersist(_, _, _) => FinishSafe(s, a);
      case DoAbandon(_) => QuietSafe(s, a, Step(s, a));
    }
  }

  // A step that leaves database and storage alone is safe.
  lemma QuietSafe(s: System, a: Action, t: System)
    requires DbOk(s.db) && SystemOk(t) && t.db == s.db && t.world == s.world
    ensures Safe(s, a, t)
  {
    Unchanged(s.db);
  }

  lemma RelaySafe(s: System, a: Action)
    requires SystemOk(s) && a.DoRelay?
    ensures Safe(s, a, Step(s, a))
  {
    if a.event < |s.db.events| {
      RelayOk(s, a.event);
    }
    QuietSafe(s, a, Step(s, a));
  }

  lemma LoadSafe(s: System, a: Action)
    requires SystemOk(s) && a.DoLoad?
    ensures Safe(s, a, Step(s, a))
  {
    var t := Step(s, a);
    if a.message < |s.messages| {
      LoadOk(s, s.messages[a.message]);
      assert t == Load(s, s.messages[a.message]);
    }
    QuietSafe(s, a, t);
  }

  lemma RunSafe(s: System, a: Action)
    requires SystemOk(s) && a.DoRun?
    ensures Safe(s, a, Step(s, a))
  {
    RunOk(s, a.job, a.faults, a.registry);
    StepIsRun(s, a);
    Unchanged(s.db);
  }

  lemma StepIsRun(s: System, a: Action)
    requires a.DoRun?
    ensures Step(s, a) == Run(s, a.job, a.faults, a.registry)
  {
  }

  lemma FinishSafe(s: System, a: Action)
    requires SystemOk(s) && a.DoPersist?
    ensures Safe(s, a, Step(s, a))
  {
    FinishOk(s, a.job, a.now, a.gone);
    StepIsFinish(s, a);
  }

  lemma StepIsFinish(s: System, a: Action)
    requires a.DoPersist?
    ensures Step(s, a) == Finish(s, a.job, a.now, a.gone)
    ensures Step(s, a).world == s.world
  {
  }

  lemma CreateSafe(s: System, a: Action)
    requires SystemOk(s) && Allowed(s, a) && a.DoCreate?
    ensures Safe(s, a, Step(s, a))
  {
    var DoCreate(newId, key, correlation, request, stationIds, rows) := a;
    CreateOk(s.db, newId, key, correlation, request, stationIds, rows);
    TransactionSafe(s, a, Create(s.db, newId, key, correlation, request, stationIds, rows).1);
  }

  lemma PrepareSafe(s: System, a: Action)
    requires SystemOk(s) && a.DoPrepare?
    ensures Safe(s, a, Step(s, a))
  {
    var DoPrepare(job, seen, admin, reports, confirmation) := a;
    PrepareOk(s.db, job, seen, admin, reports, confirmation);
    TransactionSafe(s, a, PrepareCommit(s.db, job, seen, admin, reports, confirmation).1);
  }

  lemma DispatchSafe(s: System, a: Action)
    requires SystemOk(s) && a.DoDispatch?
    ensures Safe(s, a, Step(s, a))
  {
    DispatchOk(s.db, a.job);
    TransactionSafe(s, a, Dispatch(s.db, a.job).1);
  }

  lemma MovesTransitive(a: Db, b: Db, c: Db)
    requires MovesForward(a, b) && MovesForward(b, c)
    ensures MovesForward(a, c)
  {
    forall id ensures Moves(a, c, id) {
      assert Moves(a, b, id) && Moves(b, c, id);
      if id in a.jobs {
        ReachTransitive(a.jobs[id].status, b.jobs[id].status, c.jobs[id].status);
      }
    }
  }

  function StepAll(s: System, actions: seq<Action>): System {
    if actions == [] then s else Step(StepAll(s, actions[..|actions| - 1]), actions[|actions| - 1])
  }

  predicate AllowedAll(s: System, actions: seq<Action>) {
    actions == []
    || (var init := actions[..|actions| - 1];
        AllowedAll(s, init) && Allowed(StepAll(s, init), actions[|actions| - 1]))
  }

  // Every action of the run was safe in the state it met.
  ghost predicate SafeAll(s: System, actions: seq<Action>) {
    actions == []
    || (var init, last := actions[..|actions| - 1], actions[|actions| - 1];
        SafeAll(s, init) && Safe(StepAll(s, init), last, Step(StepAll(s, init), last)))
  }

  // Pipeline safety in every interleaving: every action of the run is safe, and from start to end
  // every stored status moved along the table.
  lemma {:induction false} PipelineSafe(s: System, actions: seq<Action>)
    requires SystemOk(s) && AllowedAll(s, actions)
    ensures SystemOk(StepAll(s, actions)) && MovesForward(s.db, StepAll(s, actions).db)
    ensures SafeAll(s, actions)
  {
    if actions == [] {
      Unchanged(s.db);
    } else {
      var init, last := actions[..|actions| - 1], actions[|actions| - 1];
      PipelineSafe(s, init);
      StepSafe(StepAll(s, init), last);
      MovesTransitive(s.db, StepAll(s, init).db, Step(StepAll(s, init), last).db);
    }
  }

  // The pipeline before its first job: nothing stored, queued or delivered.
  function Start(world: World, clones: Artifacts.Table): System {
    System(Db(map[], map[], map[], [], clones, map[]), [], map[], world)
  }

  // So the same holds of every run from the start.
  lemma PipelineSafeFromStart(world: World, clones: Artifacts.Table, actions: seq<Action>)
    requires AllowedAll(Start(world, clones), actions)
    ensures SystemOk(StepAll(Start(world, clones), actions)) && SafeAll(Start(world, clones), actions)
  {
    PipelineSafe(Start(world, clones), actions);
  }

  // In every reachable system a job has exactly one outbox event if and only if it reached
  // PUBLISHING, and is then confirmed with every selected station's preflight passed.
  lemma OneEventPerDispatch(s: System, actions: seq<Action>, id: HexId)
    requires SystemOk(s) && AllowedAll(s, actions) && id in StepAll(s, actions).db.jobs
    ensures var db := StepAll(s, actions).db;
            && id in db.targets
            && (CountFor(db.events, id) == 1 <==> CanReach(Publishing, db.jobs[id].status))
            && CountFor(db.events, id) <= 1
            && (CountFor(db.events, id) == 1 ==> Cleared(db.jobs[id], db.targets[id]))
  {
    PipelineSafe(s, actions);
    EventOfJob(StepAll(s, actions).db, id);
  }

  lemma EventOfJob(db: Db, id: HexId)
    requires JobsOk(db) && id in db.jobs
    ensures id in db.targets && CountFor(db.events, id) <= 1
    ensures CountFor(db.events, id) == 1 <==> CanReach(Publishing, db.jobs[id].status)
    ensures CountFor(db.events, id) == 1 ==> Cleared(db.jobs[id], db.targets[id])
  {
    StoredOk(db, id);
    ReachedFromPublishing(db.jobs[id].status);
  }

  lemma ReachedFromPublishing(status: JobStatus)
    requires status !in {Switching, Verifying}
    ensures CanReach(Publishing, status) <==> Reached(status)
  {
    if Terminal(status) {
      PublishResults.PublishingReaches(status);
    } else if status == Publishing {
      Stays(Publishing);
    }
    if CanReach(Publishing, status) {
      var p :| Chain(p) && p[0] == Publishing && p[|p| - 1] == status;
      RankAlong(p);
    }
  }

  // Why deliveries of one job must be serial: a delivery that outlived another's final transaction
  // overwrites the stored status, and the move stays on the table exactly when the stored job was
  // not yet terminal or already had that very status.
  lemma StaleDeliveryMove(db: Db, loaded: Job, seen: seq<JobTarget>, job: Job, master: string,
                          results: seq<TargetResult>, now: int, gone: set<nat>)
    requires loaded.id in db.jobs && Reached(db.jobs[loaded.id].status) && Terminal(job.status)
    requires db.jobs[loaded.id].status !in {Switching, Verifying}
    requires PersistResult(db, loaded, seen, job, master, results, now, gone).0
    ensures var after := PersistResult(db, loaded, seen, job, master, results, now, gone).1;
            CanReach(db.jobs[loaded.id].status, after.jobs[loaded.id].status)
            <==> !Terminal(db.jobs[loaded.id].status) || db.jobs[loaded.id].status == job.status
  {
    var stored := db.jobs[loaded.id].status;
    Stays(stored);
    PublishResults.PublishingReaches(job.status);
    if CanReach(stored, job.status) && Terminal(stored) {
      ReachAntisymmetric(stored, job.status);
    }
  }
}
