// A job interrupted at any point, any number of times, is finished by one undisturbed rerun.
module PublishConvergence {
  import opened Text
  import opened Naming
  import opened PublishJobs
  import opened Storage
  import opened PublishRun
  import PublishSafety
  import PublishResults

  // What an undisturbed station step does to the storage.
  function Settle(s: Storage, plan: Plan): Storage {
    s.(datasets := WithDataset(s.datasets, plan.destination),
       extents := s.extents[plan.mapping.extent := Some(plan.Device())])
  }

  function SettleAll(s: Storage, plans: seq<Plan>): Storage
    decreases plans
  {
    if plans == [] then s else SettleAll(Settle(s, plans[0]), plans[1..])
  }

  // Two plans for one extent agree on the clone.
  predicate NoClash(plans: seq<Plan>) {
    forall p, q | p in plans && q in plans && p.mapping.extent == q.mapping.extent ::
      p.destination == q.destination
  }

  predicate Workable(s: Storage, snapshot: string, plan: Plan) {
    && ValidSnapshotRef(snapshot) && ValidDataset(plan.destination)
    && plan.mapping.extent > 0 && plan.mapping.extent in s.extents
    && |Same(s.associations, plan.mapping)| == 1
    && (!NeedsSwitch(plan) ==> s.extents[plan.mapping.extent] == Some(plan.Device()))
  }

  lemma CleanPerform(w: World, call: Call)
    requires w.faults == [] && Accepts(call)
    ensures Perform(w, call) == (Ok, World(Apply(w.storage, call), [], Perform(w, call).1.log))
  {
  }

  lemma CleanVerify(w: World, plan: Plan)
    requires w.faults == [] && ReadBackMatches(w.storage, plan)
    ensures var (signal, w') := VerifyReadBack(w, plan);
            signal.Ok? && w'.faults == [] && w'.storage == w.storage
  {
  }

  lemma UpdateEffect(s: Storage, plan: Plan)
    requires ValidDataset(plan.destination)
    ensures ValidDevice(plan.Device())
    ensures Apply(s, UpdateExtent(plan.mapping.extent, plan.Device())).extents
            == s.extents[plan.mapping.extent := Some(plan.Device())]
  {
    DeviceAccepted(plan.destination);
    assert plan.Device()[0] == 'z';
  }

  lemma CleanApply(w: World, snapshot: string, plan: Plan)
    requires w.faults == [] && Workable(w.storage, snapshot, plan)
    ensures var (r, w') := ApplyStation(w, snapshot, plan);
            && r == Some(ResultOf(plan, Verified, None, true))
            && w'.faults == [] && w'.storage == Settle(w.storage, plan)
  {
    CleanPerform(w, QueryDatasets);
    var w1 := Perform(w, QueryDatasets).1;
    CleanPerform(w1, CloneSnapshot(snapshot, plan.destination));
    var w2 := CloneIfMissing(w1, snapshot, plan).1;
    assert w2.storage.datasets == WithDataset(w.storage.datasets, plan.destination);
    UpdateEffect(w2.storage, plan);
    CleanPerform(w2, UpdateExtent(plan.mapping.extent, plan.Device()));
    var w3 := SwitchIfNeeded(w2, plan).1;
    assert w3.storage.extents == w.storage.extents[plan.mapping.extent := Some(plan.Device())];
    assert w3.storage == Settle(w.storage, plan);
    CleanVerify(w3, plan);
  }

  predicate AllWorkable(s: Storage, snapshot: string, plans: seq<Plan>) {
    forall p | p in plans :: Workable(s, snapshot, p)
  }

  lemma WorkableAfter(s: Storage, snapshot: string, plans: seq<Plan>)
    requires plans != [] && NoClash(plans) && AllWorkable(s, snapshot, plans)
    ensures AllWorkable(Settle(s, plans[0]), snapshot, plans[1..]) && NoClash(plans[1..])
  {
    forall p | p in plans[1..] ensures Workable(Settle(s, plans[0]), snapshot, p) && p in plans {
      assert p in plans && Workable(s, snapshot, p);
    }
  }

  predicate AllVerified(results: seq<TargetResult>) {
    forall r | r in results :: r.status == Verified
  }

  lemma {:induction false} CleanApplyAll(w: World, snapshot: string, plans: seq<Plan>)
    requires w.faults == [] && NoClash(plans) && AllWorkable(w.storage, snapshot, plans)
    ensures var (results, w') := ApplyAll(w, snapshot, plans);
            && results.Some? && AllVerified(results.value)
            && w'.faults == [] && w'.storage == SettleAll(w.storage, plans)
    decreases plans
  {
    if plans != [] {
      assert plans[0] in plans;
      CleanApply(w, snapshot, plans[0]);
      WorkableAfter(w.storage, snapshot, plans);
      CleanApplyAll(ApplyStation(w, snapshot, plans[0]).1, snapshot, plans[1..]);
    }
  }

  // ---- where the storage ends up ----

  predicate Destined(goals: seq<PublishSafety.Goal>, extent: int) {
    exists g | g in goals :: g.extent == extent
  }

  // The switched state of a scope: every planned extent on its clone and nothing else moved, every
  // clone present and no other new dataset, exactly the job's snapshot added.
  ghost predicate Converged(scope: PublishSafety.Scope, s: Storage) {
    && s.targets == scope.base.targets && s.associations == scope.base.associations
    && s.extents.Keys == scope.base.extents.Keys
    && (forall g | g in scope.goals ::
          g.extent in s.extents && s.extents[g.extent] == Some(DeviceOf(g.destination)))
    && (forall e | e in s.extents && !Destined(scope.goals, e) :: s.extents[e] == scope.base.extents[e])
    && (forall name :: HasDataset(s.datasets, name)
                       <==> HasDataset(scope.base.datasets, name) || PublishSafety.Planned(scope.goals, name))
    && scope.source.Some?
    && s.snapshots
       == scope.base.snapshots[SnapshotRef(scope.source.value, scope.jobId) := scope.source.value]
  }

  // The switched state is unique up to the order in which clones were listed.
  lemma ConvergedUnique(scope: PublishSafety.Scope, s: Storage, t: Storage)
    requires Converged(scope, s) && Converged(scope, t)
    ensures s.extents == t.extents && s.snapshots == t.snapshots
    ensures s.targets == t.targets && s.associations == t.associations
    ensures forall name :: HasDataset(s.datasets, name) <==> HasDataset(t.datasets, name)
  {
    forall e | e in s.extents ensures e in t.extents && s.extents[e] == t.extents[e] {
      assert e in s.extents.Keys && e in t.extents.Keys;
      if Destined(scope.goals, e) {
        var g :| g in scope.goals && g.extent == e;
      }
    }
  }

  lemma HasWith(datasets: seq<Dataset>, added: string, name: string)
    ensures HasDataset(WithDataset(datasets, added), name) <==> HasDataset(datasets, name) || name == added
  {
    var d := Dataset(added, added);
    assert d in datasets + [d];
  }

  lemma {:induction false} SettleAllEffect(s: Storage, plans: seq<Plan>)
    requires NoClash(plans) && forall p | p in plans :: p.mapping.extent in s.extents
    ensures var t := SettleAll(s, plans);
            && t.targets == s.targets && t.associations == s.associations && t.snapshots == s.snapshots
            && t.extents.Keys == s.extents.Keys
            && (forall p | p in plans ::
                  p.mapping.extent in t.extents && t.extents[p.mapping.extent] == Some(p.Device()))
            && (forall e | e in s.extents && (forall p | p in plans :: p.mapping.extent != e) ::
                  e in t.extents && t.extents[e] == s.extents[e])
            && (forall name :: HasDataset(t.datasets, name)
                               <==> HasDataset(s.datasets, name) || exists p | p in plans :: p.destination == name)
    decreases plans
  {
    if plans != [] {
      var s1, rest := Settle(s, plans[0]), plans[1..];
      assert plans == [plans[0]] + rest;
      assert forall p | p in rest :: p in plans;
      assert s1.extents.Keys == s.extents.Keys;
      SettleAllEffect(s1, rest);
      var t := SettleAll(s1, rest);
      forall name { HasWith(s.datasets, plans[0].destination, name); }
      forall p | p in plans
        ensures p.mapping.extent in t.extents && t.extents[p.mapping.extent] == Some(p.Device())
      {
        if p !in rest && exists q | q in rest :: q.mapping.extent == p.mapping.extent {
          var q :| q in rest && q.mapping.extent == p.mapping.extent;
          assert q.destination == p.destination;
        }
      }
    }
  }

  // ---- one undisturbed run from anywhere inside the frame ----

  // The job can be carried out on this storage: its source is found and well named, the stations
  // resolve, and no foreign snapshot holds the job's name.
  predicate Prepared(s: Storage, job: Job, stations: seq<Station>) {
    var source, mappings := FindSource(s.datasets, job.request.source), Resolve(s, stations);
    && job.status in {Draft, Publishing} && !job.request.dryRun && Startable(stations, true)
    && ValidDataset(job.request.source)
    && source.Some? && ValidDataset(source.value) && mappings.Some?
    && (forall m | m in mappings.value :: m.extent > 0)
    && (var full := SnapshotRef(source.value, job.id);
        full in s.snapshots ==> s.snapshots[full] == source.value)
  }

  // And stations that share an extent share their clone.
  predicate Ready(s: Storage, job: Job, stations: seq<Station>) {
    Prepared(s, job, stations) && NoClash(BuildPlans(job, stations, Resolve(s, stations).value))
  }

  lemma {:induction false} SameWithinTarget(associations: seq<Association>, m: Mapping)
    ensures Same(associations, m) == Same(OfTarget(associations, m.target), m)
  {
    if associations != [] {
      SameWithinTarget(associations[1..], m);
      var rest := OfTarget(associations[1..], m.target);
      if associations[0].target == m.target {
        assert ([associations[0]] + rest)[1..] == rest;
      } else {
        assert [] + rest == rest && [] + Same(rest, m) == Same(rest, m);
      }
    }
  }

  lemma ResolvedOnce(associations: seq<Association>, m: Mapping)
    requires OfTarget(associations, m.target) == [Association(m.target, m.extent, m.lun)]
    ensures |Same(associations, m)| == 1
  {
    SameWithinTarget(associations, m);
  }

  lemma PlanWorkable(s: Storage, job: Job, stations: seq<Station>, i: nat)
    requires Prepared(s, job, stations) && i < |stations|
    ensures var source, mappings := FindSource(s.datasets, job.request.source).value, Resolve(s, stations).value;
            Workable(s, SnapshotRef(source, job.id), BuildPlan(job, stations[i], mappings[i]))
  {
    var source, m := FindSource(s.datasets, job.request.source).value, Resolve(s, stations).value[i];
    PublishSafety.ResolveStable(s, s, stations);
    assert ResolveStation(s, stations[i]) == Some(m);
    PublishSafety.OfTargetMember(s.associations, m.target);
    ResolvedOnce(s.associations, m);
    PlanAccepted(job.request.source, stations[i].displayName, job.id);
    SnapshotAccepted(source, job.id);
    assert m in Resolve(s, stations).value;
  }

  lemma CleanLocate(w: World, job: Job, stations: seq<Station>)
    requires w.faults == [] && Prepared(w.storage, job, stations)
    ensures var source, mappings := FindSource(w.storage.datasets, job.request.source).value,
                                    Resolve(w.storage, stations).value;
            var (located, w') := Locate(w, job, stations);
            && located == Located(source, BuildPlans(job, stations, mappings))
            && w'.storage == w.storage && w'.faults == []
  {
    var w1 := Perform(w, QueryDatasets).1;
    CleanPerform(w, QueryDatasets);
    CleanPerform(w1, QueryTargets);
    var w2 := Perform(w1, QueryTargets).1;
    CleanPerform(w2, QueryTargetExtents);
    CleanPerform(Perform(w2, QueryTargetExtents).1, QueryExtents);
  }

  lemma CleanEnsure(w: World, job: Job, source: string)
    requires w.faults == [] && ValidDataset(source) && HasDataset(w.storage.datasets, source)
    requires var full := SnapshotRef(source, job.id);
             full in w.storage.snapshots ==> w.storage.snapshots[full] == source
    ensures var (ensured, w') := EnsureSnapshot(w, job, source);
            && ensured.Ok? && w'.faults == []
            && w'.storage == w.storage.(snapshots := w.storage.snapshots[SnapshotRef(source, job.id) := source])
  {
    CleanPerform(w, QuerySnapshots);
    var w1 := Perform(w, QuerySnapshots).1;
    SnapshotAccepted(source, job.id);
    assert SnapshotRef(source, job.id) == source + "@" + SnapshotName(job.id);
    CleanPerform(w1, CreateSnapshot(source, SnapshotName(job.id)));
    var full := SnapshotRef(source, job.id);
    if full in w.storage.snapshots {
      assert w.storage.snapshots[full := source] == w.storage.snapshots;
    }
  }

  predicate Succeeded(outcome: Outcome) {
    outcome.Finished? && outcome.job.status == Completed && AllVerified(outcome.targets)
  }

  lemma VerifiedCompletes(w: World, job: Job, master: string, plans: seq<Plan>)
    requires job.status == Publishing
    requires var results := ApplyAll(w, master, plans).0; results.Some? && AllVerified(results.value)
    ensures var (outcome, w') := SwitchAll(w, job, master, plans);
            Succeeded(outcome) && w' == ApplyAll(w, master, plans).1
  {
    PublishResults.SwitchAllStatus(w, job, master, plans);
    assert job.Transition(Switching).Some?;
    assert job.(status := Switching).Transition(Verifying).Some?;
  }

  lemma CleanSwitchAll(w: World, job: Job, master: string, plans: seq<Plan>)
    requires w.faults == [] && job.status == Publishing
    requires NoClash(plans) && AllWorkable(w.storage, master, plans)
    ensures var (outcome, w') := SwitchAll(w, job, master, plans);
            Succeeded(outcome) && w'.storage == SettleAll(w.storage, plans)
  {
    CleanApplyAll(w, master, plans);
    VerifiedCompletes(w, job, master, plans);
  }

  // The storage an undisturbed run leaves behind.
  function Finish(s: Storage, job: Job, stations: seq<Station>): Storage
    requires Ready(s, job, stations)
  {
    var source, mappings := FindSource(s.datasets, job.request.source).value, Resolve(s, stations).value;
    SettleAll(s.(snapshots := s.snapshots[SnapshotRef(source, job.id) := source]),
              BuildPlans(job, stations, mappings))
  }

  lemma CleanWrite(w: World, job: Job, source: string, plans: seq<Plan>)
    requires w.faults == [] && job.status == Publishing
    requires ValidDataset(source) && HasDataset(w.storage.datasets, source)
    requires var full := SnapshotRef(source, job.id);
             full in w.storage.snapshots ==> w.storage.snapshots[full] == source
    requires NoClash(plans) && AllWorkable(w.storage, SnapshotRef(source, job.id), plans)
    ensures var (outcome, w') := Write(w, job, source, plans);
            && Succeeded(outcome)
            && w'.storage == SettleAll(w.storage.(snapshots := w.storage.snapshots[SnapshotRef(source, job.id) := source]),
                                       plans)
  {
    CleanEnsure(w, job, source);
    var w1 := EnsureSnapshot(w, job, source).1;
    forall p | p in plans ensures Workable(w1.storage, SnapshotRef(source, job.id), p) {
      assert Workable(w.storage, SnapshotRef(source, job.id), p);
    }
    CleanSwitchAll(w1, job, SnapshotRef(source, job.id), plans);
  }

  lemma ExecuteWrites(w: World, job: Job, stations: seq<Station>, source: string, plans: seq<Plan>)
    requires job.status in {Draft, Publishing} && !job.request.dryRun && Startable(stations, true)
    requires Locate(w, job, stations).0 == Located(source, plans)
    ensures Execute(w, job, stations, true)
            == Write(Locate(w, job, stations).1, job.(status := Publishing), source, plans)
  {
    PublishResults.Enters(job);
  }

  lemma PlansWorkable(s: Storage, job: Job, stations: seq<Station>)
    requires Ready(s, job, stations)
    ensures var source, mappings := FindSource(s.datasets, job.request.source).value, Resolve(s, stations).value;
            AllWorkable(s, SnapshotRef(source, job.id), BuildPlans(job, stations, mappings))
  {
    var source, mappings := FindSource(s.datasets, job.request.source).value, Resolve(s, stations).value;
    var plans := BuildPlans(job, stations, mappings);
    forall p | p in plans ensures Workable(s, SnapshotRef(source, job.id), p) {
      var i :| 0 <= i < |plans| && plans[i] == p;
      PlanWorkable(s, job, stations, i);
    }
  }

  lemma CleanRun(w: World, job: Job, stations: seq<Station>)
    requires w.faults == [] && Ready(w.storage, job, stations)
    ensures var (outcome, w') := Execute(w, job, stations, true);
            Succeeded(outcome) && w'.storage == Finish(w.storage, job, stations)
  {
    var source, mappings := FindSource(w.storage.datasets, job.request.source).value, Resolve(w.storage, stations).value;
    var plans := BuildPlans(job, stations, mappings);
    CleanLocate(w, job, stations);
    PublishSafety.FindSourceStable(w.storage.datasets, w.storage.datasets, job.request.source);
    PlansWorkable(w.storage, job, stations);
    ExecuteWrites(w, job, stations, source, plans);
    CleanWrite(Locate(w, job, stations).1, job.(status := Publishing), source, plans);
  }

  // ---- crash and rerun ----

  lemma ReadyStays(base: Storage, s: Storage, job: Job, stations: seq<Station>)
    requires Ready(base, job, stations)
    requires PublishSafety.Framed(PublishSafety.ScopeOf(base, job, stations), s)
    ensures Ready(s, job, stations)
  {
    PublishSafety.ResolveStable(base, s, stations);
    PublishSafety.FindSourceStable(base.datasets, s.datasets, job.request.source);
    var a, b := Resolve(base, stations).value, Resolve(s, stations).value;
    forall m | m in b ensures m.extent > 0 {
      var i :| 0 <= i < |b| && b[i] == m;
      assert PublishSafety.SameWiring(a[i], b[i]) && a[i] in a;
    }
    var before, after := BuildPlans(job, stations, a), BuildPlans(job, stations, b);
    forall p, q | p in after && q in after && p.mapping.extent == q.mapping.extent
      ensures p.destination == q.destination
    {
      var i :| 0 <= i < |after| && after[i] == p;
      var j :| 0 <= j < |after| && after[j] == q;
      assert PublishSafety.SameWiring(a[i], b[i]) && PublishSafety.SameWiring(a[j], b[j]);
      assert before[i] in before && before[j] in before;
    }
  }

  lemma FinishConverges(base: Storage, s: Storage, job: Job, stations: seq<Station>)
    requires Ready(base, job, stations) && Ready(s, job, stations)
    requires PublishSafety.Framed(PublishSafety.ScopeOf(base, job, stations), s)
    ensures Converged(PublishSafety.ScopeOf(base, job, stations), Finish(s, job, stations))
  {
    var scope := PublishSafety.ScopeOf(base, job, stations);
    PublishSafety.ScopeStable(base, s, job, stations);
    PublishSafety.ResolveStable(s, s, stations);
    var source := scope.source.value;
    var plans := BuildPlans(job, stations, Resolve(s, stations).value);
    assert scope.goals == PublishSafety.GoalsOf(plans);
    forall p | p in plans ensures p.mapping.extent in s.extents {
      var i :| 0 <= i < |plans| && plans[i] == p;
    }
    var snapped := s.(snapshots := s.snapshots[SnapshotRef(source, job.id) := source]);
    SettleAllEffect(snapped, plans);
    GoalsMirrorPlans(plans);
    FramedNames(scope, s);
    ConvergedFrom(scope, s, plans, Finish(s, job, stations));
  }

  lemma GoalsMirrorPlans(plans: seq<Plan>)
    ensures forall g | g in PublishSafety.GoalsOf(plans) ::
              exists p | p in plans :: p.mapping.extent == g.extent && p.destination == g.destination
    ensures forall p | p in plans ::
              PublishSafety.Goal(p.mapping.extent, p.destination) in PublishSafety.GoalsOf(plans)
  {
    var goals := PublishSafety.GoalsOf(plans);
    forall g | g in goals
      ensures exists p | p in plans :: p.mapping.extent == g.extent && p.destination == g.destination
    {
      var i :| 0 <= i < |goals| && goals[i] == g;
      assert plans[i] in plans;
    }
    forall p | p in plans ensures PublishSafety.Goal(p.mapping.extent, p.destination) in goals {
      var i :| 0 <= i < |plans| && plans[i] == p;
      assert goals[i] in goals;
    }
  }

  lemma FramedNames(scope: PublishSafety.Scope, s: Storage)
    requires PublishSafety.Framed(scope, s)
    ensures forall name | HasDataset(s.datasets, name) ::
              HasDataset(scope.base.datasets, name) || PublishSafety.Planned(scope.goals, name)
    ensures forall name | HasDataset(scope.base.datasets, name) :: HasDataset(s.datasets, name)
  {
    forall name | HasDataset(s.datasets, name)
      ensures HasDataset(scope.base.datasets, name) || PublishSafety.Planned(scope.goals, name)
    {
      var k :| 0 <= k < |s.datasets| && s.datasets[k].name == name;
      if k < |scope.base.datasets| {
        assert scope.base.datasets[k] in scope.base.datasets;
      }
    }
  }

  lemma ConvergedFrom(scope: PublishSafety.Scope, s: Storage, plans: seq<Plan>, t: Storage)
    requires PublishSafety.Framed(scope, s) && scope.source.Some? && scope.goals == PublishSafety.GoalsOf(plans)
    requires NoClash(plans) && forall p | p in plans :: p.mapping.extent in s.extents
    requires t == SettleAll(s.(snapshots := s.snapshots[SnapshotRef(scope.source.value, scope.jobId) := scope.source.value]),
                            plans)
    ensures Converged(scope, t)
  {
    var snapped := s.(snapshots := s.snapshots[SnapshotRef(scope.source.value, scope.jobId) := scope.source.value]);
    SettleAllEffect(snapped, plans);
    GoalsMirrorPlans(plans);
    FramedNames(scope, s);
    forall e | e in t.extents && !Destined(scope.goals, e) ensures t.extents[e] == scope.base.extents[e] {
      assert e in s.extents.Keys;
      forall p | p in plans ensures p.mapping.extent != e {
        assert PublishSafety.Goal(p.mapping.extent, p.destination) in scope.goals;
      }
      assert !PublishSafety.Moved(scope.goals, s, e);
    }
    forall name ensures HasDataset(t.datasets, name)
                        <==> HasDataset(scope.base.datasets, name) || PublishSafety.Planned(scope.goals, name)
    {
      if PublishSafety.Planned(scope.goals, name) {
        var g :| g in scope.goals && g.destination == name;
      }
      if exists p | p in plans :: p.destination == name {
        var p :| p in plans && p.destination == name;
        assert PublishSafety.Goal(p.mapping.extent, p.destination) in scope.goals;
      }
    }
  }

  // After interrupted runs the storage is still ready, and finishing from it converges.
  lemma InterruptedConverges(w: World, job: Job, stations: seq<Station>, schedules: seq<seq<Fault>>)
    requires Ready(w.storage, job, stations)
    ensures var s := PublishSafety.RunAll(w, job, stations, schedules).storage;
            Ready(s, job, stations)
            && Converged(PublishSafety.ScopeOf(w.storage, job, stations), Finish(s, job, stations))
  {
    PublishSafety.RunAllTracked(w.storage, w, job, stations, schedules, |w.log|);
    var s := PublishSafety.RunAll(w, job, stations, schedules).storage;
    ReadyStays(w.storage, s, job, stations);
    FinishConverges(w.storage, s, job, stations);
  }

  // Whatever faults and crashes earlier deliveries of the job met, one undisturbed delivery
  // completes it, and the storage is then in the same switched state as if nothing had gone wrong.
  lemma CrashAndRerunConverges(w: World, job: Job, stations: seq<Station>, schedules: seq<seq<Fault>>)
    requires Ready(w.storage, job, stations)
    ensures var interrupted := PublishSafety.RunAll(w, job, stations, schedules).(faults := []);
            var (outcome, rerun) := Execute(interrupted, job, stations, true);
            var undisturbed := Execute(w.(faults := []), job, stations, true).1;
            && Succeeded(outcome)
            && Converged(PublishSafety.ScopeOf(w.storage, job, stations), rerun.storage)
            && Converged(PublishSafety.ScopeOf(w.storage, job, stations), undisturbed.storage)
  {
    InterruptedConverges(w, job, stations, schedules);
    CleanRun(PublishSafety.RunAll(w, job, stations, schedules).(faults := []), job, stations);
    InterruptedConverges(w, job, stations, []);
    CleanRun(w.(faults := []), job, stations);
  }

  // The condition on shared extents is exact: the rerun reaches the switched state exactly without a clash.
  lemma ConvergesExactly(w: World, job: Job, stations: seq<Station>, schedules: seq<seq<Fault>>)
    requires Prepared(w.storage, job, stations)
    ensures var interrupted := PublishSafety.RunAll(w, job, stations, schedules).(faults := []);
            Converged(PublishSafety.ScopeOf(w.storage, job, stations), Execute(interrupted, job, stations, true).1.storage)
            <==> NoClash(PublishResults.PlansAt(w.storage, job, stations))
  {
    var plans := PublishResults.PlansAt(w.storage, job, stations);
    if NoClash(plans) {
      CrashAndRerunConverges(w, job, stations, schedules);
    } else {
      var interrupted := PublishSafety.RunAll(w, job, stations, schedules).(faults := []);
      ClashNeverConverges(PublishSafety.ScopeOf(w.storage, job, stations), plans,
                          Execute(interrupted, job, stations, true).1.storage);
    }
  }

  lemma ClashNeverConverges(scope: PublishSafety.Scope, plans: seq<Plan>, s: Storage)
    requires scope.goals == PublishSafety.GoalsOf(plans) && !NoClash(plans)
    ensures !Converged(scope, s)
  {
    var p, q :| p in plans && q in plans && p.mapping.extent == q.mapping.extent && p.destination != q.destination;
    GoalsMirrorPlans(plans);
    assert PublishSafety.Goal(p.mapping.extent, p.destination) in scope.goals;
    assert PublishSafety.Goal(q.mapping.extent, q.destination) in scope.goals;
    DevicesDiffer(p.destination, q.destination);
  }

  // With a clash the run still reports success: both stations VERIFIED, though the first one's extent ends on
  // the other's clone.
  lemma SharedExtentOverwrites(w: World, snapshot: string, p: Plan, q: Plan)
    requires w.faults == [] && Workable(w.storage, snapshot, p) && Workable(w.storage, snapshot, q)
    requires p.mapping.extent == q.mapping.extent && p.destination != q.destination && NeedsSwitch(p) && NeedsSwitch(q)
    ensures var (results, w') := ApplyAll(w, snapshot, [p, q]);
            && results.Some? && AllVerified(results.value)
            && ReadBackMatches(w'.storage, q) && !ReadBackMatches(w'.storage, p)
  {
    CleanApply(w, snapshot, p);
    var w1 := ApplyStation(w, snapshot, p).1;
    CleanApplyAll(w1, snapshot, [q]);
    assert [p, q][1..] == [q] && [q][1..] == [];
    assert SettleAll(w1.storage, [q]) == Settle(w1.storage, q);
    FirstThenRest(w, snapshot, p, q);
    DevicesDiffer(p.destination, q.destination);
  }

  lemma FirstThenRest(w: World, snapshot: string, p: Plan, q: Plan)
    ensures var (first, w1) := ApplyStation(w, snapshot, p);
            var (rest, w2) := ApplyAll(w1, snapshot, [q]);
            first.Some? && rest.Some? ==> ApplyAll(w, snapshot, [p, q]) == (Some([first.value] + rest.value), w2)
  {
    assert [p, q][1..] == [q] && [p, q][0] == p;
  }

  // When the switch is lost and the read-back cannot confirm it, the station is reported as RECOVERY_REQUIRED:
  // its clone exists, its extent is where it was.
  lemma LostSwitch(w: World, snapshot: string, plan: Plan)
    requires Workable(w.storage, snapshot, plan) && NeedsSwitch(plan)
    requires w.storage.extents[plan.mapping.extent] == plan.mapping.oldDevice
    requires w.faults == if HasDataset(w.storage.datasets, plan.destination) then [Fine, RaiseLost]
                         else [Fine, Fine, RaiseLost]
    ensures var (r, w') := ApplyStation(w, snapshot, plan);
            && r == Some(ResultOf(plan, RecoveryRequired, Some("extent_update_unknown"), true))
            && w'.storage.extents == w.storage.extents
  {
    UpdateEffect(w.storage, plan);
    var w1 := Perform(w, QueryDatasets).1;
    var w2 := CloneIfMissing(w1, snapshot, plan).1;
    assert w2.faults == [RaiseLost] && w2.storage.extents == w.storage.extents;
    var w3 := SwitchIfNeeded(w2, plan).1;
    assert w3.faults == [] && w3.storage == w2.storage;
    assert !ReadBackMatches(w3.storage, plan);
  }
}
