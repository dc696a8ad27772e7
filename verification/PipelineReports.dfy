// What dispatch relies on: the reports and the confirmation of the last successful prepare of the job.
module PipelineReports {
  import opened Text
  import opened Naming
  import opened PublishJobs
  import opened Storage
  import opened Pipeline
  import opened PipelineSafety
  import Artifacts

  // ---- what one prepare stores ----

  // A selected target holds its own station's report, any other none; nothing else of a target changes.
  predicate HoldsReport(before: JobTarget, after: JobTarget, reports: map<nat, CheckStatus>) {
    && after == before.(preflight := after.preflight)
    && (before.selected ==> before.station in reports && after.preflight == Some(reports[before.station]))
    && (!before.selected ==> after.preflight == None)
  }

  predicate AllHold(before: seq<JobTarget>, after: seq<JobTarget>, reports: map<nat, CheckStatus>) {
    |after| == |before| && forall k | 0 <= k < |before| :: HoldsReport(before[k], after[k], reports)
  }

  // The prepared job is the stored one with its new status, reason and confirmation; it is told to go on
  // exactly with no reason against it, and an answer of the operator replaces the one before.
  predicate JobPrepared(before: Job, after: Job, open: bool, confirmation: Option<bool>) {
    && after == before.(status := after.status, reason := after.reason, confirmation := after.confirmation)
    && after.confirmation == (if confirmation.Some? then confirmation else before.confirmation)
    && (after.reason == None <==> open)
  }

  lemma PrepareStores(db: Db, id: HexId, seen: seq<JobTarget>, admin: Option<CheckStatus>,
                      reports: map<nat, CheckStatus>, confirmation: Option<bool>)
    ensures var (r, after) := PrepareCommit(db, id, seen, admin, reports, confirmation);
            r.Prepared? ==>
              && id in db.jobs && id in db.targets && id in after.jobs && id in after.targets
              && after.jobs[id] == r.job && after == db.(jobs := db.jobs[id := r.job], targets := after.targets)
              && after.targets == db.targets[id := after.targets[id]]
              && AllHold(db.targets[id], after.targets[id], reports)
              && JobPrepared(db.jobs[id], r.job, GateReasons(admin, reports, SelectedStations(seen), confirmation) == [],
                             confirmation)
  {
    var (r, after) := PrepareCommit(db, id, seen, admin, reports, confirmation);
    if r.Prepared? {
      var before := db.targets[id];
      var reasons := GateReasons(admin, reports, SelectedStations(seen), confirmation);
      UpdateJobMoves(db.jobs[id], reasons, confirmation);
      forall k | 0 <= k < |before| ensures HoldsReport(before[k], WithPreflights(before, reports)[k], reports) {
        assert before[k] in before;
      }
    }
  }

  // ---- the last successful prepare of a run ----

  predicate Prepares(s: System, a: Action, id: HexId) {
    a.DoPrepare? && a.job == id && PrepareCommit(s.db, a.job, a.seen, a.admin, a.reports, a.confirmation).0.Prepared?
  }

  function LastReports(s: System, actions: seq<Action>, id: HexId): Option<map<nat, CheckStatus>> {
    if actions == [] then None
    else
      var init, last := actions[..|actions| - 1], actions[|actions| - 1];
      if Prepares(StepAll(s, init), last, id) then Some(last.reports) else LastReports(s, init, id)
  }

  // What the operator answered last, to a prepare that asked.
  function LastAnswer(s: System, actions: seq<Action>, id: HexId): Option<bool> {
    if actions == [] then None
    else
      var init, last := actions[..|actions| - 1], actions[|actions| - 1];
      if Prepares(StepAll(s, init), last, id) && last.confirmation.Some? then last.confirmation
      else LastAnswer(s, init, id)
  }

  predicate Holds(t: JobTarget, reports: Option<map<nat, CheckStatus>>) {
    && (t.selected && reports.Some? ==> t.station in reports.value)
    && t.preflight == if t.selected && reports.Some? && t.station in reports.value then Some(reports.value[t.station])
                      else None
  }

  predicate Remembers(db: Db, id: HexId, reports: Option<map<nat, CheckStatus>>, answer: Option<bool>) {
    if id in db.jobs && id in db.targets then
      db.jobs[id].confirmation == answer && forall k | 0 <= k < |db.targets[id]| :: Holds(db.targets[id][k], reports)
    else reports == None && answer == None
  }

  // A transaction that leaves this job's confirmation and its targets' preflights alone.
  predicate SamePreflights(before: seq<JobTarget>, after: seq<JobTarget>) {
    |after| == |before| && forall k | 0 <= k < |before| ::
      after[k].station == before[k].station && after[k].selected == before[k].selected
      && after[k].preflight == before[k].preflight
  }

  lemma StillRemembers(before: Db, after: Db, id: HexId, reports: Option<map<nat, CheckStatus>>, answer: Option<bool>)
    requires Remembers(before, id, reports, answer)
    requires id in before.jobs && id in before.targets <==> id in after.jobs && id in after.targets
    requires id in before.jobs && id in before.targets ==>
               && after.jobs[id].confirmation == before.jobs[id].confirmation
               && SamePreflights(before.targets[id], after.targets[id])
    ensures Remembers(after, id, reports, answer)
  {
  }

  lemma CreateRemembers(db: Db, a: Action, id: HexId, reports: Option<map<nat, CheckStatus>>, answer: Option<bool>)
    requires a.DoCreate? && a.newId !in db.jobs && Remembers(db, id, reports, answer) && db.jobs.Keys == db.targets.Keys
    ensures Remembers(Create(db, a.newId, a.key, a.correlation, a.request, a.stationIds, a.rows).1, id, reports, answer)
  {
  }

  lemma PersistRemembers(s: System, job: HexId, now: int, gone: set<nat>, id: HexId,
                         reports: Option<map<nat, CheckStatus>>, answer: Option<bool>)
    requires SystemOk(s) && Remembers(s.db, id, reports, answer)
    ensures Remembers(Finish(s, job, now, gone).db, id, reports, answer)
  {
    if job in s.deliveries && s.deliveries[job].outcome.Some? {
      var d := s.deliveries[job];
      assert DeliveryOk(s.db, job, d) && JobOk(s.db, job);
      var o := d.outcome.value;
      ResultsKeepClearance(d.targets, o.targets);
      PersistChanges(s.db, job, d, now, gone);
      var (committed, after) := PersistResult(s.db, d.job, d.targets, o.job, o.master, o.targets, now, gone);
      StillRemembers(s.db, after, id, reports, answer);
    }
  }

  lemma PrepareRemembers(db: Db, a: Action, id: HexId, reports: Option<map<nat, CheckStatus>>, answer: Option<bool>)
    requires a.DoPrepare? && Remembers(db, id, reports, answer) && db.jobs.Keys == db.targets.Keys
    ensures var (r, after) := PrepareCommit(db, a.job, a.seen, a.admin, a.reports, a.confirmation);
            var mine := r.Prepared? && a.job == id;
            Remembers(after, id, if mine then Some(a.reports) else reports,
                      if mine && a.confirmation.Some? then a.confirmation else answer)
  {
    PrepareStores(db, a.job, a.seen, a.admin, a.reports, a.confirmation);
    var (r, after) := PrepareCommit(db, a.job, a.seen, a.admin, a.reports, a.confirmation);
    if r.Prepared? && a.job == id {
      forall k | 0 <= k < |after.targets[id]| ensures Holds(after.targets[id][k], Some(a.reports)) {
        assert HoldsReport(db.targets[id][k], after.targets[id][k], a.reports);
      }
    }
  }

  lemma DispatchRemembers(db: Db, job: HexId, id: HexId, reports: Option<map<nat, CheckStatus>>, answer: Option<bool>)
    requires Remembers(db, id, reports, answer)
    ensures Remembers(Dispatch(db, job).1, id, reports, answer)
  {
    StillRemembers(db, Dispatch(db, job).1, id, reports, answer);
  }

  // Steps of the other kinds leave the database alone.
  lemma OtherSteps(s: System, a: Action)
    requires !a.DoCreate? && !a.DoPrepare? && !a.DoDispatch? && !a.DoPersist?
    ensures Step(s, a).db == s.db
  {
  }

  lemma StepRemembers(s: System, a: Action, id: HexId, reports: Option<map<nat, CheckStatus>>, answer: Option<bool>)
    requires SystemOk(s) && PipelineSafety.Allowed(s, a) && Remembers(s.db, id, reports, answer)
    ensures var mine := Prepares(s, a, id);
            Remembers(Step(s, a).db, id, if mine then Some(a.reports) else reports,
                      if mine && a.confirmation.Some? then a.confirmation else answer)
  {
    match a
    case DoCreate(_, _, _, _, _, _) => CreateRemembers(s.db, a, id, reports, answer);
    case DoPrepare(_, _, _, _, _) => PrepareRemembers(s.db, a, id, reports, answer);
    case DoDispatch(job) => DispatchRemembers(s.db, job, id, reports, answer);
    case DoPersist(job, now, gone) =>
      PersistRemembers(s, job, now, gone, id, reports, answer);
      StepIsFinish(s, a);
    case _ => OtherSteps(s, a);
  }

  // In every run the stored preflights are the reports of the job's last successful prepare, and the stored
  // confirmation is the operator's last answer.
  lemma {:induction false} RunRemembers(world: World, clones: Artifacts.Table, actions: seq<Action>, id: HexId)
    requires AllowedAll(Start(world, clones), actions)
    ensures var s := Start(world, clones);
            Remembers(StepAll(s, actions).db, id, LastReports(s, actions, id), LastAnswer(s, actions, id))
  {
    if actions != [] {
      var s, init, last := Start(world, clones), actions[..|actions| - 1], actions[|actions| - 1];
      RunRemembers(world, clones, init, id);
      PipelineSafeFromStart(world, clones, init);
      StepRemembers(StepAll(s, init), last, id, LastReports(s, init, id), LastAnswer(s, init, id));
    }
  }

  predicate Passed(t: JobTarget, reports: Option<map<nat, CheckStatus>>) {
    reports.Some? && t.station in reports.value && CanPublish(reports.value[t.station])
  }

  // Dispatch succeeds exactly for a job that awaits its confirmation, whose operator last said yes, and whose last
  // successful prepare had a report of pass or warning for every selected station, of which there is one. A later
  // prepare with a blocked station makes it refuse.
  lemma DispatchExactly(world: World, clones: Artifacts.Table, actions: seq<Action>, id: HexId)
    requires AllowedAll(Start(world, clones), actions)
    ensures var s := Start(world, clones);
            var db, reports := StepAll(s, actions).db, LastReports(s, actions, id);
            Dispatch(db, id).0
            <==> && id in db.jobs && id in db.targets && db.jobs[id].status == AwaitingConfirmation
                 && LastAnswer(s, actions, id) == Some(true)
                 && (exists t | t in db.targets[id] :: t.selected)
                 && forall t | t in db.targets[id] && t.selected :: Passed(t, reports)
  {
    RunRemembers(world, clones, actions, id);
    PipelineSafeFromStart(world, clones, actions);
    var s := Start(world, clones);
    var db, reports := StepAll(s, actions).db, LastReports(s, actions, id);
    DispatchOk(db, id);
    if id in db.jobs && id in db.targets {
      PassingIsPassed(db.targets[id], reports);
    }
  }

  lemma PassingIsPassed(targets: seq<JobTarget>, reports: Option<map<nat, CheckStatus>>)
    requires forall k | 0 <= k < |targets| :: Holds(targets[k], reports)
    ensures forall t | t in targets && t.selected :: Passing(t) <==> Passed(t, reports)
  {
    forall t | t in targets && t.selected ensures Passing(t) <==> Passed(t, reports) {
      var k :| 0 <= k < |targets| && targets[k] == t;
      assert Holds(targets[k], reports);
    }
  }
}
