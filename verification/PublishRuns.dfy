// Runs that the workflow allows and an operator would not expect.
module PublishRuns {
  import opened Text
  import opened Naming
  import opened PublishJobs
  import opened Storage
  import opened PublishRun
  import opened PublishConvergence
  import Artifacts
  import Pipeline
  import PipelineSafety
  import PublishDelivery
  import PublishSafety
  import PublishResults

  // ---- two targets on one extent ----

  // Two stations share an extent and get different clones, and neither clone is mapped yet.
  predicate Clash(p: Plan, q: Plan) {
    p.mapping.extent == q.mapping.extent && p.destination != q.destination && NeedsSwitch(p) && NeedsSwitch(q)
  }

  // The undisturbed run of such a pair is COMPLETED with both stations VERIFIED, and the first one's extent is
  // not on its clone.
  lemma ClashCompletes(w: World, job: Job, a: Station, b: Station)
    requires w.faults == [] && Prepared(w.storage, job, [a, b])
    requires Clash(PublishResults.PlansAt(w.storage, job, [a, b])[0], PublishResults.PlansAt(w.storage, job, [a, b])[1])
    ensures var plans, (outcome, w') := PublishResults.PlansAt(w.storage, job, [a, b]), Execute(w, job, [a, b], true);
            && Succeeded(outcome) && plans[0].mapping.extent in w'.storage.extents
            && w'.storage.extents[plans[0].mapping.extent] == Some(plans[1].Device())
            && plans[0].Device() != plans[1].Device()
  {
    var source := FindSource(w.storage.datasets, job.request.source).value;
    var plans := PublishResults.PlansAt(w.storage, job, [a, b]);
    var running, snapshot := job.(status := Publishing), SnapshotRef(source, job.id);
    CleanLocate(w, job, [a, b]);
    ExecuteWrites(w, job, [a, b], source, plans);
    var w1 := Locate(w, job, [a, b]).1;
    PublishSafety.FindSourceStable(w.storage.datasets, w.storage.datasets, job.request.source);
    CleanEnsure(w1, running, source);
    var w2 := EnsureSnapshot(w1, running, source).1;
    PlanWorkable(w.storage, job, [a, b], 0);
    PlanWorkable(w.storage, job, [a, b], 1);
    assert plans == [plans[0], plans[1]];
    SharedExtentOverwrites(w2, snapshot, plans[0], plans[1]);
    VerifiedCompletes(w2, running, snapshot, plans);
    DevicesDiffer(plans[0].destination, plans[1].destination);
  }

  const SHARED := Storage([Dataset("games", "games")], map[], [Target(1, "first"), Target(2, "second")],
                          [Association(1, 7, 0), Association(2, 7, 0)], map[7 := None])

  const PC := Station(1, "pc", Some("first"))

  const BOX := Station(2, "box", Some("second"))

  lemma PairResolves(s: Storage, a: Station, b: Station, m: Mapping, n: Mapping)
    requires ResolveStation(s, a) == Some(m) && ResolveStation(s, b) == Some(n)
    ensures Resolve(s, [a, b]) == Some([m, n])
  {
    assert [a, b][1..] == [b] && [b][1..] == [];
    assert Resolve(s, []) == Some([]);
    assert [n] + [] == [n] && [m] + [n] == [m, n];
    assert Resolve(s, [b]) == Some([n]);
  }

  lemma PairPlans(s: Storage, job: Job, a: Station, b: Station, m: Mapping, n: Mapping)
    requires Resolve(s, [a, b]) == Some([m, n])
    ensures PublishResults.PlansAt(s, job, [a, b]) == [BuildPlan(job, a, m), BuildPlan(job, b, n)]
  {
  }

  lemma SharedMappings()
    ensures FindSource(SHARED.datasets, "games") == Some("games")
    ensures ResolveStation(SHARED, PC) == Some(Mapping(1, 7, 0, None))
    ensures ResolveStation(SHARED, BOX) == Some(Mapping(2, 7, 0, None))
  {
    var first, second := Association(1, 7, 0), Association(2, 7, 0);
    assert OfTarget([second], 1) == [] && OfTarget([second], 2) == [second];
    assert [first, second][1..] == [second];
    assert OfTarget([first, second], 1) == [first] + [];
    assert OfTarget([first, second], 2) == [] + [second];
    assert [Target(1, "first"), Target(2, "second")][1..] == [Target(2, "second")];
    assert FindTarget([Target(2, "second")], "second") == Some(Target(2, "second"));
    assert "first" != "second";
  }

  lemma GamesValid()
    ensures ValidDataset("games")
  {
    SplitWithoutSeparator("games", '/');
  }

  lemma PairPrepared(s: Storage, job: Job, a: Station, b: Station, m: Mapping, n: Mapping)
    requires FindSource(s.datasets, job.request.source) == Some(job.request.source) && ValidDataset(job.request.source)
    requires Resolve(s, [a, b]) == Some([m, n]) && m.extent > 0 && n.extent > 0 && a.id != b.id && s.snapshots == map[]
    requires job.status == Publishing && !job.request.dryRun
    ensures Prepared(s, job, [a, b])
  {
    assert StationIds([a, b]) == [a.id, b.id];
  }

  lemma SharedPrepared(job: Job)
    requires job.status == Publishing && job.request.source == "games" && !job.request.dryRun
    ensures Resolve(SHARED, [PC, BOX]) == Some([Mapping(1, 7, 0, None), Mapping(2, 7, 0, None)])
    ensures Prepared(SHARED, job, [PC, BOX])
  {
    GamesValid();
    SharedMappings();
    PairResolves(SHARED, PC, BOX, Mapping(1, 7, 0, None), Mapping(2, 7, 0, None));
    PairPrepared(SHARED, job, PC, BOX, Mapping(1, 7, 0, None), Mapping(2, 7, 0, None));
  }

  lemma DifferentClones(job: Job)
    ensures DestinationDataset("games", "pc", job.id) != DestinationDataset("games", "box", job.id)
  {
    SlugFixedPoint("pc");
    SlugFixedPoint("box");
    DestinationInjective("games", "pc", "box", job.id);
  }

  // Such an appliance exists: the run succeeds, and the first station's extent is on the other one's clone.
  lemma SharedExtentRun(job: Job)
    requires job.status == Publishing && job.request.source == "games" && !job.request.dryRun
    ensures var (outcome, w') := Execute(World(SHARED, [], []), job, [PC, BOX], true);
            && Succeeded(outcome) && 7 in w'.storage.extents
            && w'.storage.extents[7] == Some(DeviceOf(DestinationDataset("games", "box", job.id)))
            && w'.storage.extents[7] != Some(DeviceOf(DestinationDataset("games", "pc", job.id)))
  {
    SharedPrepared(job);
    PairPlans(SHARED, job, PC, BOX, Mapping(1, 7, 0, None), Mapping(2, 7, 0, None));
    DifferentClones(job);
    ClashCompletes(World(SHARED, [], []), job, PC, BOX);
  }

  // ---- two deliveries of one job at once ----

  // The five reads before the first station succeed, the listing of the datasets for its clone fails.
  const LATE := [Fine, Fine, Fine, Fine, Fine, RaiseLost]

  lemma FineQuery(w: World, call: Call)
    requires w.faults != [] && w.faults[0] == Fine && !IsWrite(call)
    ensures Perform(w, call).0.Ok? && Perform(w, call).1.storage == w.storage && Perform(w, call).1.faults == w.faults[1..]
  {
  }

  lemma LateLocate(w: World, job: Job, station: Station)
    requires w.faults == LATE
    requires FindSource(w.storage.datasets, job.request.source).Some? && Resolve(w.storage, [station]).Some?
    ensures var (located, w') := Locate(w, job, [station]);
            && located == Located(FindSource(w.storage.datasets, job.request.source).value,
                                  PublishResults.PlansAt(w.storage, job, [station]))
            && w'.storage == w.storage && w'.faults == [Fine, RaiseLost]
  {
    FineQuery(w, QueryDatasets);
    var w1 := Perform(w, QueryDatasets).1;
    FineQuery(w1, QueryTargets);
    var w2 := Perform(w1, QueryTargets).1;
    FineQuery(w2, QueryTargetExtents);
    FineQuery(Perform(w2, QueryTargetExtents).1, QueryExtents);
  }

  lemma LateSwitch(w: World, job: Job, master: string, plan: Plan)
    requires w.faults == [RaiseLost] && job.status == Publishing
    ensures var outcome := SwitchAll(w, job, master, [plan]).0;
            outcome.Finished? && outcome.job.status == Failed
            && outcome.targets == [ResultOf(plan, Error, Some("target_failed"), false)]
  {
    var r := ResultOf(plan, Error, Some("target_failed"), false);
    assert ApplyStation(w, master, plan).0 == Some(r);
    assert [plan][1..] == [] && [r] + [] == [r];
    assert ApplyAll(w, master, [plan]).0 == Some([r]);
    assert [r][1..] == [] && CountVerified([r]) == 0;
    PublishResults.SwitchAllStatus(w, job, master, [plan]);
    assert job.Transition(Switching) == Some(job.(status := Switching));
    assert job.(status := Switching).Transition(Verifying) == Some(job.(status := Verifying));
  }

  // On storage that already has the snapshot such a run reports the job as FAILED.
  lemma LateRun(w: World, job: Job, station: Station)
    requires w.faults == LATE && Prepared(w.storage, job, [station])
    requires var source := FindSource(w.storage.datasets, job.request.source).value;
             SnapshotRef(source, job.id) in w.storage.snapshots
    ensures var outcome := Execute(w, job, [station], true).0;
            && outcome.Finished? && outcome.job.status == Failed
            && |outcome.targets| == 1 && outcome.targets[0].status == Error
  {
    var source := FindSource(w.storage.datasets, job.request.source).value;
    var plans := PublishResults.PlansAt(w.storage, job, [station]);
    LateLocate(w, job, station);
    ExecuteWrites(w, job, [station], source, plans);
    var w1 := Locate(w, job, [station]).1;
    FineQuery(w1, QuerySnapshots);
    assert plans == [plans[0]];
    LateSwitch(Perform(w1, QuerySnapshots).1, job.(status := Publishing), SnapshotRef(source, job.id), plans[0]);
  }

  lemma FirstKeepsStations(targets: seq<Pipeline.JobTarget>, results: seq<TargetResult>)
    requires AllVerified(results)
    ensures Pipeline.TargetStations(Pipeline.WithResults(targets, results)) == Pipeline.TargetStations(targets)
  {
    PublishDelivery.AllTargetsVerified(targets, results);
    var after := Pipeline.WithResults(targets, results);
    forall id | id in Pipeline.TargetStations(targets) ensures id in Pipeline.TargetStations(after) {
      var k :| 0 <= k < |targets| && targets[k].station == id;
      assert after[k] in after;
    }
    forall id | id in Pipeline.TargetStations(after) ensures id in Pipeline.TargetStations(targets) {
      var k :| 0 <= k < |after| && after[k].station == id;
      assert targets[k] in targets;
    }
  }

  // After an undisturbed run the storage is ready for another one, and has the snapshot.
  lemma ReadyAgain(w: World, job: Job, stations: seq<Station>)
    requires w.faults == [] && Ready(w.storage, job, stations)
    ensures var (outcome, w') := Execute(w, job, stations, true);
            && Succeeded(outcome) && Prepared(w'.storage, job, stations)
            && SnapshotRef(FindSource(w'.storage.datasets, job.request.source).value, job.id) in w'.storage.snapshots
  {
    CleanRun(w, job, stations);
    var s := Execute(w, job, stations, true).1.storage;
    assert PublishSafety.RunAll(w, job, stations, [[]]).storage == s by {
      var none: seq<seq<Fault>> := [];
      assert w.(faults := []) == w && [[]][1..] == none;
    }
    InterruptedConverges(w, job, stations, [[]]);
    InterruptedConverges(w, job, stations, []);
    PublishSafety.RunAllTracked(w.storage, w, job, stations, [[]], |w.log|);
    PublishSafety.FindSourceStable(w.storage.datasets, s.datasets, job.request.source);
  }

  // Two transactions of deliveries that read the same job, one after the other.
  predicate Overwrites(db: Pipeline.Db, job: Job, targets: seq<Pipeline.JobTarget>, first: Outcome, second: Outcome,
                       now: int)
    requires first.Finished? && second.Finished?
  {
    var (stored, db1) := Pipeline.PersistResult(db, job, targets, first.job, first.master, first.targets, now, {});
    var (again, db2) := Pipeline.PersistResult(db1, job, targets, second.job, second.master, second.targets, now, {});
    && stored && job.id in db1.jobs && db1.jobs[job.id] == first.job
    && again && job.id in db2.jobs && db2.jobs[job.id] == second.job
  }

  lemma BothCommit(db: Pipeline.Db, job: Job, targets: seq<Pipeline.JobTarget>, first: Outcome, second: Outcome, now: int)
    requires first.Finished? && second.Finished? && AllVerified(first.targets)
    requires job.id in db.jobs && job.id in db.targets && db.targets[job.id] == targets
    ensures Overwrites(db, job, targets, first, second, now)
  {
    FirstKeepsStations(targets, first.targets);
  }

  // Two deliveries read the same dispatched job. The first publishes it and stores it as COMPLETED; the second
  // fails at once and its transaction turns the stored status into FAILED, against the status table.
  lemma LateDeliveryOverwrites(w: World, db: Pipeline.Db, job: Job, targets: seq<Pipeline.JobTarget>, station: Station,
                               now: int)
    requires w.faults == [] && Ready(w.storage, job, [station]) && job.status == Publishing
    requires job.id in db.jobs && job.id in db.targets && db.jobs[job.id] == job && db.targets[job.id] == targets
    ensures var (first, w1) := Execute(w, job, [station], true);
            var second := Execute(w1.(faults := LATE), job, [station], true).0;
            && first.Finished? && second.Finished? && Overwrites(db, job, targets, first, second, now)
            && first.job.status == Completed && second.job.status == Failed
            && !CanReach(first.job.status, second.job.status)
  {
    ReadyAgain(w, job, [station]);
    var (first, w1) := Execute(w, job, [station], true);
    LateRun(w1.(faults := LATE), job, station);
    BothCommit(db, job, targets, first, Execute(w1.(faults := LATE), job, [station], true).0, now);
    if CanReach(Completed, Failed) { ReachAntisymmetric(Completed, Failed); }
  }

  // ---- a dispatched job ----

  const TARGET := Pipeline.JobTarget(1, true, Some(Pipeline.Pass), None, None, None, None, 0)

  function Dispatched(id: HexId): Job {
    Job(id, "key", 0, Request("title", "games", None, false, false, None), Publishing, None, Some(true))
  }

  // One dispatched job with its event relayed, over the storage above.
  function Waiting(id: HexId): PipelineSafety.System {
    PipelineSafety.System(
      Pipeline.Db(map[id := Dispatched(id)], map["key" := id], map[id := [TARGET]], [Pipeline.Event(id, 0, "key")],
                  Artifacts.EMPTY_TABLE, map[]),
      [Pipeline.Event(id, 0, "key")], map[], World(SHARED, [], []))
  }

  lemma WaitingOk(id: HexId)
    ensures PipelineSafety.SystemOk(Waiting(id)) && Artifacts.TableOk(Waiting(id).db.clones)
    ensures PublishDelivery.Loadable(Waiting(id), 0, Dispatched(id), [TARGET])
    ensures Waiting(id).world.storage == SHARED
  {
    var db, event := Waiting(id).db, Pipeline.Event(id, 0, "key");
    assert [event][..0] == [] && PipelineSafety.CountFor([event], id) == 1;
    assert TARGET in [TARGET];
    assert PipelineSafety.Cleared(Dispatched(id), [TARGET]);
    assert PipelineSafety.JobOk(db, id);
  }

  lemma SingleReady(s: Storage, job: Job, a: Station, m: Mapping)
    requires FindSource(s.datasets, job.request.source) == Some(job.request.source) && ValidDataset(job.request.source)
    requires ResolveStation(s, a) == Some(m) && m.extent > 0 && s.snapshots == map[]
    requires job.status == Publishing && !job.request.dryRun
    ensures Ready(s, job, [a])
  {
    assert [a][1..] == [] && [m] + [] == [m];
    assert Resolve(s, []) == Some([]);
    assert Resolve(s, [a]) == Some([m]);
    assert StationIds([a]) == [a.id];
  }

  // From there any number of crashed deliveries and one undisturbed one publish the job.
  lemma WaitingJobIsPublished(id: HexId, schedules: seq<seq<Fault>>, now: int)
    ensures var registry := map[1 := PC];
            var t := PipelineSafety.StepAll(Waiting(id), PublishDelivery.Crashes(0, id, registry, schedules)
                       + [PipelineSafety.DoLoad(0), PipelineSafety.DoRun(id, [], registry),
                          PipelineSafety.DoPersist(id, now, {})]);
            PublishDelivery.Published(Dispatched(id), [PC], t.db)
  {
    WaitingOk(id);
    WaitingReady(id);
    OnlySelected();
    WaitingPublishes(Waiting(id), Dispatched(id), [TARGET], PC, map[1 := PC], schedules, now);
  }

  lemma WaitingReady(id: HexId)
    ensures Ready(SHARED, Dispatched(id), [PC])
  {
    GamesValid();
    SharedMappings();
    SingleReady(SHARED, Dispatched(id), PC, Mapping(1, 7, 0, None));
  }

  lemma WaitingPublishes(s: PipelineSafety.System, job: Job, targets: seq<Pipeline.JobTarget>, station: Station,
                         registry: map<nat, Station>, schedules: seq<seq<Fault>>, now: int)
    requires PipelineSafety.SystemOk(s) && Artifacts.TableOk(s.db.clones) && PublishDelivery.Loadable(s, 0, job, targets)
    requires PipelineSafety.StationsFor(Pipeline.SelectedStations(targets), registry) == Some([station])
    requires (forall id | id in registry :: registry[id].id == id) && Ready(s.world.storage, job, [station])
    ensures var t := PipelineSafety.StepAll(s, PublishDelivery.Crashes(0, job.id, registry, schedules)
                       + [PipelineSafety.DoLoad(0), PipelineSafety.DoRun(job.id, [], registry),
                          PipelineSafety.DoPersist(job.id, now, {})]);
            PublishDelivery.Published(job, [station], t.db)
  {
    PublishDelivery.DeliveryPublishes(s, 0, job, targets, [station], registry, schedules, now, {});
  }

  lemma OnlySelected()
    ensures Pipeline.SelectedStations([TARGET]) == [1]
    ensures PipelineSafety.StationsFor(Pipeline.SelectedStations([TARGET]), map[1 := PC]) == Some([PC])
  {
    assert [TARGET][1..] == [];
    assert [1] + [] == [1];
    OneStation(1, PC);
  }

  lemma OneStation(id: nat, station: Station)
    ensures PipelineSafety.StationsFor([id], map[id := station]) == Some([station])
  {
    assert PipelineSafety.StationsFor([id], map[id := station]).value == [station];
  }
}
