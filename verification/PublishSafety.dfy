// What a publish run may do to the storage, at every step and under every fault schedule.
module PublishSafety {
  import opened Text
  import opened Naming
  import opened PublishJobs
  import opened Storage
  import opened PublishRun

  datatype Goal = Goal(extent: int, destination: string)

  // What one job may touch, fixed by the storage it first met: the extents to move with their
  // clones, and the dataset to snapshot (none when the stations do not resolve).
  datatype Scope = Scope(base: Storage, goals: seq<Goal>, source: Option<string>, jobId: HexId)

  function GoalsOf(plans: seq<Plan>): (goals: seq<Goal>)
    ensures |goals| == |plans|
  {
    seq(|plans|, i requires 0 <= i < |plans| => Goal(plans[i].mapping.extent, plans[i].destination))
  }

  function ScopeOf(base: Storage, job: Job, stations: seq<Station>): Scope {
    var source, mappings := FindSource(base.datasets, job.request.source), Resolve(base, stations);
    if source == None || mappings == None then Scope(base, [], None, job.id)
    else Scope(base, GoalsOf(BuildPlans(job, stations, mappings.value)), source, job.id)
  }

  predicate Planned(goals: seq<Goal>, name: string) {
    exists g | g in goals :: g.destination == name
  }

  predicate Moved(goals: seq<Goal>, s: Storage, extent: int)
    requires extent in s.extents
  {
    exists g | g in goals ::
      && g.extent == extent && s.extents[extent] == Some(DeviceOf(g.destination))
      && HasDataset(s.datasets, g.destination)
  }

  predicate SnapshotsFramed(scope: Scope, s: Storage) {
    || s.snapshots == scope.base.snapshots
    || (&& scope.source.Some?
        && SnapshotRef(scope.source.value, scope.jobId) !in scope.base.snapshots
        && s.snapshots
           == scope.base.snapshots[SnapshotRef(scope.source.value, scope.jobId) := scope.source.value])
  }

  // Targets and associations are untouched; nothing is removed; every new dataset is a planned
  // clone and the only new snapshot is the job's; an extent keeps its old device unless a plan for
  // it moved it to a clone that exists.
  predicate Framed(scope: Scope, s: Storage) {
    && s.targets == scope.base.targets && s.associations == scope.base.associations
    && scope.base.datasets <= s.datasets
    && (forall k | |scope.base.datasets| <= k < |s.datasets| :: Planned(scope.goals, s.datasets[k].name))
    && SnapshotsFramed(scope, s)
    && s.extents.Keys == scope.base.extents.Keys
    && (forall e | e in s.extents ::
          s.extents[e] == scope.base.extents[e] || Moved(scope.goals, s, e))
  }

  // Every storage state logged from position `from` on, and the present one, is framed.
  predicate Tracked(scope: Scope, w: World, from: nat) {
    && from <= |w.log|
    && Framed(scope, w.storage)
    && forall k | from <= k < |w.log| :: Framed(scope, w.log[k].after)
  }

  predicate Permitted(scope: Scope, s: Storage, call: Call) {
    match call
    case CreateSnapshot(dataset, name) =>
      scope.source == Some(dataset) && name == SnapshotName(scope.jobId) && HasDataset(s.datasets, dataset)
    case CloneSnapshot(_, destination) => Planned(scope.goals, destination)
    case UpdateExtent(extent, device) =>
      && extent in scope.base.extents.Keys && HasDataset(s.datasets, RemovePrefix(device, "zvol/"))
      && exists g | g in scope.goals :: g.extent == extent && device == DeviceOf(g.destination)
    case DeleteDataset(_) => false
    case _ => true
  }

  lemma MovedStays(goals: seq<Goal>, s: Storage, t: Storage, extent: int)
    requires extent in s.extents && extent in t.extents && s.extents[extent] == t.extents[extent]
    requires s.datasets <= t.datasets
    requires Moved(goals, s, extent)
    ensures Moved(goals, t, extent)
  {
    var g :| g in goals && g.extent == extent && s.extents[extent] == Some(DeviceOf(g.destination))
             && HasDataset(s.datasets, g.destination);
    assert HasDataset(t.datasets, g.destination);
  }

  lemma PermittedStaysFramed(scope: Scope, s: Storage, call: Call)
    requires Framed(scope, s) && Permitted(scope, s, call)
    ensures Framed(scope, Apply(s, call))
  {
    var t := Apply(s, call);
    match call {
      case UpdateExtent(extent, device) =>
        var g :| g in scope.goals && g.extent == extent && device == DeviceOf(g.destination);
        DeviceAccepted(g.destination);
        assert CanonicalDiskDevice(device) == device by { assert device[0] == 'z'; }
        assert Moved(scope.goals, t, extent);
      case _ =>
    }
    forall e | e in t.extents
      ensures t.extents[e] == scope.base.extents[e] || Moved(scope.goals, t, e)
    {
      if t.extents[e] == s.extents[e] && Moved(scope.goals, s, e) {
        MovedStays(scope.goals, s, t, e);
      }
    }
  }

  // Any permitted call keeps every logged state inside the frame.
  lemma PerformTracked(scope: Scope, w: World, call: Call, from: nat)
    requires Tracked(scope, w, from) && Permitted(scope, w.storage, call)
    ensures Tracked(scope, Perform(w, call).1, from)
    ensures w.storage.datasets <= Perform(w, call).1.storage.datasets
    ensures w.log <= Perform(w, call).1.log
    ensures !IsWrite(call) ==> Perform(w, call).1.storage == w.storage
  {
    PermittedStaysFramed(scope, w.storage, call);
  }

  lemma VerifyTracked(scope: Scope, w: World, plan: Plan, from: nat)
    requires Tracked(scope, w, from)
    ensures Tracked(scope, VerifyReadBack(w, plan).1, from)
    ensures VerifyReadBack(w, plan).1.storage == w.storage
    ensures w.log <= VerifyReadBack(w, plan).1.log
    ensures VerifyReadBack(w, plan).0.Ok? ==> ReadBackMatches(w.storage, plan)
  {
    PerformTracked(scope, w, QueryTargetExtents, from);
    PerformTracked(scope, Perform(w, QueryTargetExtents).1, QueryExtents, from);
  }

  predicate PlanFits(scope: Scope, plan: Plan) {
    && Goal(plan.mapping.extent, plan.destination) in scope.goals
    && plan.mapping.extent in scope.base.extents.Keys
  }

  lemma CloneTracked(scope: Scope, w: World, snapshot: string, plan: Plan, from: nat)
    requires Tracked(scope, w, from) && PlanFits(scope, plan)
    ensures var (cloned, w') := CloneIfMissing(w, snapshot, plan);
            && Tracked(scope, w', from) && w.log <= w'.log
            && w'.storage.extents == w.storage.extents
            && (cloned.Ok? ==> HasDataset(w'.storage.datasets, plan.destination))
  {
    var clone := CloneSnapshot(snapshot, plan.destination);
    assert Planned(scope.goals, plan.destination);
    PerformTracked(scope, w, clone, from);
    CloneCreates(w.storage, clone);
  }

  lemma SwitchTracked(scope: Scope, w: World, plan: Plan, from: nat)
    requires Tracked(scope, w, from) && PlanFits(scope, plan)
    requires HasDataset(w.storage.datasets, plan.destination)
    ensures var w' := SwitchIfNeeded(w, plan).1;
            Tracked(scope, w', from) && w.log <= w'.log
  {
    DeviceAccepted(plan.destination);
    assert RemovePrefix(plan.Device(), "zvol/") == plan.destination;
    PerformTracked(scope, w, UpdateExtent(plan.mapping.extent, plan.Device()), from);
  }

  lemma TryTracked(scope: Scope, w: World, snapshot: string, plan: Plan, from: nat)
    requires Tracked(scope, w, from) && PlanFits(scope, plan)
    ensures var a := TrySwitch(w, snapshot, plan);
            && Tracked(scope, a.world, from) && w.log <= a.world.log
            && (a.signal.Ok? ==> ReadBackMatches(a.world.storage, plan))
  {
    PerformTracked(scope, w, QueryDatasets, from);
    var (listed, w1) := Perform(w, QueryDatasets);
    CloneTracked(scope, w1, snapshot, plan, from);
    var (cloned, w2) := CloneIfMissing(w1, snapshot, plan);
    if listed.Ok? && cloned.Ok? {
      SwitchTracked(scope, w2, plan, from);
      VerifyTracked(scope, SwitchIfNeeded(w2, plan).1, plan, from);
    }
  }

  lemma CloneCreates(s: Storage, clone: Call)
    requires clone.CloneSnapshot?
    ensures HasDataset(Apply(s, clone).datasets, clone.destination)
  {
    var d := Dataset(clone.destination, clone.destination);
    assert !HasDataset(s.datasets, clone.destination) ==> d in s.datasets + [d];
  }

  lemma ApplyTracked(scope: Scope, w: World, snapshot: string, plan: Plan, from: nat)
    requires Tracked(scope, w, from) && PlanFits(scope, plan)
    ensures Tracked(scope, ApplyStation(w, snapshot, plan).1, from)
    ensures w.log <= ApplyStation(w, snapshot, plan).1.log
  {
    TryTracked(scope, w, snapshot, plan, from);
    VerifyTracked(scope, TrySwitch(w, snapshot, plan).world, plan, from);
  }

  predicate PlansFit(scope: Scope, plans: seq<Plan>) {
    forall p | p in plans :: PlanFits(scope, p)
  }

  lemma {:induction false} ApplyAllTracked(scope: Scope, w: World, snapshot: string, plans: seq<Plan>, from: nat)
    requires Tracked(scope, w, from) && PlansFit(scope, plans)
    ensures Tracked(scope, ApplyAll(w, snapshot, plans).1, from)
    ensures w.log <= ApplyAll(w, snapshot, plans).1.log
    decreases plans
  {
    if plans != [] {
      ApplyTracked(scope, w, snapshot, plans[0], from);
      var (first, w1) := ApplyStation(w, snapshot, plans[0]);
      if first.Some? {
        ApplyAllTracked(scope, w1, snapshot, plans[1..], from);
      }
    }
  }

  // ---- the scope does not drift while the job makes progress ----

  lemma {:induction false} FindSourceStable(a: seq<Dataset>, b: seq<Dataset>, source: string)
    requires a <= b && FindSource(a, source).Some?
    ensures FindSource(b, source) == FindSource(a, source)
    ensures HasDataset(a, FindSource(a, source).value)
  {
    if a[0].name != source && a[0].id != source {
      FindSourceStable(a[1..], b[1..], source);
      assert forall d | d in a[1..] :: d in a;
    }
  }

  lemma OfTargetMember(associations: seq<Association>, target: int)
    ensures forall a | a in OfTarget(associations, target) :: a in associations && a.target == target
  {
  }

  lemma ResolveStationStable(s: Storage, t: Storage, station: Station)
    requires s.targets == t.targets && s.associations == t.associations && s.extents.Keys == t.extents.Keys
    ensures ResolveStation(s, station).Some? <==> ResolveStation(t, station).Some?
    ensures var a, b := ResolveStation(s, station), ResolveStation(t, station);
            a.Some? ==> && b.value.target == a.value.target && b.value.extent == a.value.extent
                        && b.value.lun == a.value.lun && a.value.extent in s.extents
                        && a.value.oldDevice == s.extents[a.value.extent]
                        && b.value.oldDevice == t.extents[a.value.extent]
  {
    if station.targetName.Some? {
      var target := FindTarget(s.targets, station.targetName.value);
      if target.Some? {
        var found := OfTarget(s.associations, target.value.id);
        assert |found| == 1 ==> (found[0].extent in s.extents <==> found[0].extent in s.extents.Keys);
        assert |found| == 1 ==> (found[0].extent in t.extents <==> found[0].extent in t.extents.Keys);
      }
    }
  }

  predicate SameWiring(a: Mapping, b: Mapping) {
    a.target == b.target && a.extent == b.extent && a.lun == b.lun
  }

  lemma {:induction false} ResolveStable(s: Storage, t: Storage, stations: seq<Station>)
    requires s.targets == t.targets && s.associations == t.associations && s.extents.Keys == t.extents.Keys
    ensures Resolve(s, stations).Some? <==> Resolve(t, stations).Some?
    ensures Resolve(s, stations).Some? ==>
              forall i | 0 <= i < |stations| ::
                && ResolveStation(s, stations[i]) == Some(Resolve(s, stations).value[i])
                && SameWiring(Resolve(s, stations).value[i], Resolve(t, stations).value[i])
                && Resolve(s, stations).value[i].extent in s.extents
                && Resolve(t, stations).value[i].oldDevice == t.extents[Resolve(s, stations).value[i].extent]
  {
    if stations != [] {
      ResolveStationStable(s, t, stations[0]);
      ResolveStable(s, t, stations[1..]);
    }
  }

  // Reached from the base by earlier runs, the storage still yields the same goals and source.
  lemma ScopeStable(base: Storage, s: Storage, job: Job, stations: seq<Station>)
    requires Framed(ScopeOf(base, job, stations), s)
    ensures ScopeOf(s, job, stations) == ScopeOf(base, job, stations).(base := s)
  {
    var scope := ScopeOf(base, job, stations);
    ResolveStable(base, s, stations);
    if scope.source.Some? {
      FindSourceStable(base.datasets, s.datasets, job.request.source);
      var a, b := Resolve(base, stations).value, Resolve(s, stations).value;
      assert GoalsOf(BuildPlans(job, stations, a)) == GoalsOf(BuildPlans(job, stations, b));
    } else {
      NothingToDo(scope, s);
    }
  }

  lemma NothingToDo(scope: Scope, s: Storage)
    requires Framed(scope, s) && scope.source == None && scope.goals == []
    ensures s == scope.base
  {
    assert |s.datasets| > |scope.base.datasets| ==>
      Planned(scope.goals, s.datasets[|scope.base.datasets|].name);
    forall e | e in s.extents ensures s.extents[e] == scope.base.extents[e] {
      assert !Moved(scope.goals, s, e);
    }
  }

  // ---- whole runs ----

  lemma EnsureTracked(scope: Scope, w: World, job: Job, source: string, from: nat)
    requires Tracked(scope, w, from) && scope.source == Some(source) && scope.jobId == job.id
    requires HasDataset(w.storage.datasets, source)
    ensures var (ensured, w') := EnsureSnapshot(w, job, source);
            Tracked(scope, w', from) && w.log <= w'.log && w'.storage.extents == w.storage.extents
  {
    PerformTracked(scope, w, QuerySnapshots, from);
    var w1 := Perform(w, QuerySnapshots).1;
    PerformTracked(scope, w1, CreateSnapshot(source, SnapshotName(job.id)), from);
  }

  lemma ReadMappingsTracked(scope: Scope, w: World, from: nat)
    requires Tracked(scope, w, from)
    ensures var w' := ReadMappings(w).1;
            Tracked(scope, w', from) && w.log <= w'.log && w'.storage == w.storage
  {
    PerformTracked(scope, w, QueryTargets, from);
    var w1 := Perform(w, QueryTargets).1;
    PerformTracked(scope, w1, QueryTargetExtents, from);
    PerformTracked(scope, Perform(w1, QueryTargetExtents).1, QueryExtents, from);
  }

  lemma PlansFitScope(base: Storage, s: Storage, job: Job, stations: seq<Station>)
    requires Framed(ScopeOf(base, job, stations), s)
    requires FindSource(s.datasets, job.request.source).Some? && Resolve(s, stations).Some?
    ensures PlansFit(ScopeOf(base, job, stations), BuildPlans(job, stations, Resolve(s, stations).value))
    ensures ScopeOf(base, job, stations).source == FindSource(s.datasets, job.request.source)
    ensures HasDataset(s.datasets, FindSource(s.datasets, job.request.source).value)
  {
    var scope := ScopeOf(base, job, stations);
    ScopeStable(base, s, job, stations);
    ResolveStable(s, s, stations);
    FindSourceStable(s.datasets, s.datasets, job.request.source);
    var plans := BuildPlans(job, stations, Resolve(s, stations).value);
    assert scope.goals == GoalsOf(plans);
    forall p | p in plans ensures PlanFits(scope, p) {
      var i :| 0 <= i < |plans| && plans[i] == p;
      assert GoalsOf(plans)[i] == Goal(p.mapping.extent, p.destination);
      assert p.mapping.extent in s.extents;
    }
  }

  // The read-only part changes nothing and hands out plans that fit the scope.
  lemma LocateTracked(base: Storage, w: World, job: Job, stations: seq<Station>, from: nat)
    requires Tracked(ScopeOf(base, job, stations), w, from)
    ensures var scope, (located, w') := ScopeOf(base, job, stations), Locate(w, job, stations);
            && Tracked(scope, w', from) && w.log <= w'.log && w'.storage == w.storage
            && (located.Located? ==> && scope.source == Some(located.source)
                                     && HasDataset(w.storage.datasets, located.source)
                                     && PlansFit(scope, located.plans))
  {
    var scope := ScopeOf(base, job, stations);
    PerformTracked(scope, w, QueryDatasets, from);
    ReadMappingsTracked(scope, Perform(w, QueryDatasets).1, from);
    if Locate(w, job, stations).0.Located? {
      PlansFitScope(base, w.storage, job, stations);
    }
  }

  lemma WriteTracked(scope: Scope, w: World, job: Job, source: string, plans: seq<Plan>, from: nat)
    requires Tracked(scope, w, from) && scope.source == Some(source) && scope.jobId == job.id
    requires HasDataset(w.storage.datasets, source) && PlansFit(scope, plans)
    ensures var w' := Write(w, job, source, plans).1;
            Tracked(scope, w', from) && w.log <= w'.log
  {
    EnsureTracked(scope, w, job, source, from);
    var w1 := EnsureSnapshot(w, job, source).1;
    ApplyAllTracked(scope, w1, SnapshotRef(source, job.id), plans, from);
  }

  // Frame of one run that starts anywhere inside the frame, under any faults.
  lemma ExecuteTracked(base: Storage, w: World, job: Job, stations: seq<Station>, confirmed: bool, from: nat)
    requires Tracked(ScopeOf(base, job, stations), w, from)
    ensures Tracked(ScopeOf(base, job, stations), Execute(w, job, stations, confirmed).1, from)
    ensures w.log <= Execute(w, job, stations, confirmed).1.log
  {
    LocateTracked(base, w, job, stations, from);
    var (located, w1) := Locate(w, job, stations);
    var entered := EnterPublishing(job);
    if located.Located? && entered.Some? && entered.value.Some? {
      WriteTracked(ScopeOf(base, job, stations), w1, entered.value.value, located.source, located.plans, from);
    }
  }

  // Storage frame at every step of every faulty run: all states the run logs, in particular the
  // one it leaves behind when it dies, are inside the frame fixed at its start.
  lemma RunFrame(w: World, job: Job, stations: seq<Station>, confirmed: bool)
    ensures Tracked(ScopeOf(w.storage, job, stations), Execute(w, job, stations, confirmed).1, |w.log|)
  {
    ExecuteTracked(w.storage, w, job, stations, confirmed, |w.log|);
  }

  // Redeliveries: one run after another, each with its own faults, whatever became of the last.
  function RunAll(w: World, job: Job, stations: seq<Station>, schedules: seq<seq<Fault>>): World
    decreases schedules
  {
    if schedules == [] then w
    else RunAll(Execute(w.(faults := schedules[0]), job, stations, true).1, job, stations, schedules[1..])
  }

  lemma {:induction false} RunAllTracked(base: Storage, w: World, job: Job, stations: seq<Station>,
                                         schedules: seq<seq<Fault>>, from: nat)
    requires Tracked(ScopeOf(base, job, stations), w, from)
    ensures Tracked(ScopeOf(base, job, stations), RunAll(w, job, stations, schedules), from)
    decreases schedules
  {
    if schedules != [] {
      var w0 := w.(faults := schedules[0]);
      ExecuteTracked(base, w0, job, stations, true, from);
      RunAllTracked(base, Execute(w0, job, stations, true).1, job, stations, schedules[1..], from);
    }
  }

  // From one world to a later one, only queries were made.
  predicate Quiet(w: World, w': World) {
    && w'.storage == w.storage && w.log <= w'.log
    && forall k | |w.log| <= k < |w'.log| :: !IsWrite(w'.log[k].call)
  }

  lemma QueryQuiet(w: World, w': World, call: Call)
    requires Quiet(w, w') && !IsWrite(call)
    ensures Quiet(w, Perform(w', call).1)
  {
  }

  lemma LocateQuiet(w: World, job: Job, stations: seq<Station>)
    ensures Quiet(w, Locate(w, job, stations).1)
  {
    var w1 := Perform(w, QueryDatasets).1;
    var w2 := Perform(w1, QueryTargets).1;
    var w3 := Perform(w2, QueryTargetExtents).1;
    QueryQuiet(w, w, QueryDatasets);
    QueryQuiet(w, w1, QueryTargets);
    QueryQuiet(w, w2, QueryTargetExtents);
    QueryQuiet(w, w3, QueryExtents);
  }

  // A dry run changes nothing at any step.
  lemma DryRunWritesNothing(w: World, job: Job, stations: seq<Station>, confirmed: bool)
    requires job.request.dryRun
    ensures Quiet(w, Execute(w, job, stations, confirmed).1)
  {
    LocateQuiet(w, job, stations);
  }
}
