// The publish workflow as a function of the storage and the fault schedule.
module PublishRun {
  import opened Text
  import opened Naming
  import opened PublishJobs
  import opened Storage

  datatype Station = Station(id: nat, displayName: string, targetName: Option<string>)

  datatype Mapping = Mapping(target: int, extent: int, lun: int, oldDevice: Option<string>)

  datatype Plan = Plan(station: nat, mapping: Mapping, destination: string)
  {
    function Device(): string { DeviceOf(destination) }
  }

  // ---- reading the appliance ----

  // First match by name or id, as next(...) over the listing does.
  function FindSource(datasets: seq<Dataset>, source: string): Option<string> {
    if datasets == [] then None
    else if datasets[0].name == source || datasets[0].id == source then Some(datasets[0].name)
    else FindSource(datasets[1..], source)
  }

  function FindTarget(targets: seq<Target>, name: string): Option<Target> {
    if targets == [] then None
    else if targets[0].name == name then Some(targets[0])
    else FindTarget(targets[1..], name)
  }

  function OfTarget(associations: seq<Association>, target: int): seq<Association> {
    if associations == [] then []
    else (if associations[0].target == target then [associations[0]] else [])
         + OfTarget(associations[1..], target)
  }

  function Same(associations: seq<Association>, m: Mapping): seq<Association> {
    if associations == [] then []
    else (if associations[0] == Association(m.target, m.extent, m.lun) then [associations[0]] else [])
         + Same(associations[1..], m)
  }

  function ResolveStation(s: Storage, station: Station): Option<Mapping> {
    if station.targetName == None || station.targetName.value == "" then None
    else
      var target := FindTarget(s.targets, station.targetName.value);
      if target == None then None
      else
        var found := OfTarget(s.associations, target.value.id);
        if |found| != 1 || found[0].extent !in s.extents then None
        else Some(Mapping(target.value.id, found[0].extent, found[0].lun, s.extents[found[0].extent]))
  }

  function Resolve(s: Storage, stations: seq<Station>): (r: Option<seq<Mapping>>)
    ensures r.Some? ==> |r.value| == |stations|
  {
    if stations == [] then Some([])
    else
      var first, rest := ResolveStation(s, stations[0]), Resolve(s, stations[1..]);
      if first == None || rest == None then None else Some([first.value] + rest.value)
  }

  function BuildPlan(job: Job, station: Station, mapping: Mapping): Plan {
    Plan(station.id, mapping, DestinationDataset(job.request.source, station.displayName, job.id))
  }

  function BuildPlans(job: Job, stations: seq<Station>, mappings: seq<Mapping>): (plans: seq<Plan>)
    requires |stations| == |mappings|
    ensures |plans| == |stations|
  {
    seq(|stations|, i requires 0 <= i < |stations| => BuildPlan(job, stations[i], mappings[i]))
  }

  // ---- one station ----

  function ReadBackMatches(s: Storage, plan: Plan): bool {
    && |Same(s.associations, plan.mapping)| == 1
    && plan.mapping.extent in s.extents
    && s.extents[plan.mapping.extent] == Some(plan.Device())
  }

  function VerifyReadBack(w: World, plan: Plan): (Signal, World) {
    var (first, w1) := Perform(w, QueryTargetExtents);
    if !first.Ok? then (first, w1)
    else if |Same(w1.storage.associations, plan.mapping)| != 1 then (Raised, w1)
    else
      var (second, w2) := Perform(w1, QueryExtents);
      if !second.Ok? then (second, w2)
      else (if ReadBackMatches(w2.storage, plan) then Ok else Raised, w2)
  }

  datatype Attempt = Attempt(signal: Signal, writeAttempted: bool, storageCreated: bool, world: World)

  function CloneIfMissing(w: World, snapshot: string, plan: Plan): (Signal, World) {
    if HasDataset(w.storage.datasets, plan.destination) then (Ok, w)
    else Perform(w, CloneSnapshot(snapshot, plan.destination))
  }

  predicate NeedsSwitch(plan: Plan) { plan.mapping.oldDevice != Some(plan.Device()) }

  function SwitchIfNeeded(w: World, plan: Plan): (Signal, World) {
    if NeedsSwitch(plan) then Perform(w, UpdateExtent(plan.mapping.extent, plan.Device())) else (Ok, w)
  }

  // The try block of a station, with the two flags its handler looks at.
  function TrySwitch(w: World, snapshot: string, plan: Plan): Attempt {
    var (listed, w1) := Perform(w, QueryDatasets);
    if !listed.Ok? then Attempt(listed, false, false, w1)
    else
      var (cloned, w2) := CloneIfMissing(w1, snapshot, plan);
      if !cloned.Ok? then Attempt(cloned, false, false, w2)
      else
        var (switched, w3) := SwitchIfNeeded(w2, plan);
        if !switched.Ok? then Attempt(switched, NeedsSwitch(plan), true, w3)
        else
          var (verified, w4) := VerifyReadBack(w3, plan);
          Attempt(verified, NeedsSwitch(plan), true, w4)
  }

  function ResultOf(plan: Plan, status: TargetStatus, code: Option<string>, created: bool): TargetResult {
    TargetResult(plan.station, status, plan.mapping.oldDevice, Some(plan.Device()), code, created)
  }

  // None when the process died.
  function ApplyStation(w: World, snapshot: string, plan: Plan): (Option<TargetResult>, World) {
    var a := TrySwitch(w, snapshot, plan);
    match a.signal
    case Crashed => (None, a.world)
    case Ok => (Some(ResultOf(plan, Verified, None, a.storageCreated)), a.world)
    case Raised =>
      if !a.writeAttempted then
        (Some(ResultOf(plan, Error, Some("target_failed"), a.storageCreated)), a.world)
      else
        var (again, w2) := VerifyReadBack(a.world, plan);
        match again
        case Crashed => (None, w2)
        case Ok => (Some(ResultOf(plan, Verified, None, a.storageCreated)), w2)
        case Raised =>
          (Some(ResultOf(plan, RecoveryRequired, Some("extent_update_unknown"), a.storageCreated)), w2)
  }

  function ApplyAll(w: World, snapshot: string, plans: seq<Plan>): (r: (Option<seq<TargetResult>>, World))
    ensures r.0.Some? ==> |r.0.value| == |plans|
    decreases plans
  {
    if plans == [] then (Some([]), w)
    else
      var (first, w1) := ApplyStation(w, snapshot, plans[0]);
      if first == None then (None, w1)
      else
        var (rest, w2) := ApplyAll(w1, snapshot, plans[1..]);
        (if rest == None then None else Some([first.value] + rest.value), w2)
  }

  // ---- the whole run ----

  datatype Outcome =
    | Finished(job: Job, master: string, targets: seq<TargetResult>)
    | Rejected            // PublishPreconditionError, before any call
    | Aborted             // an exception left the run
    | Died                // the process died inside a call
    | IllegalTransition   // Job.transition raised

  function Interrupted(signal: Signal): Outcome {
    if signal.Crashed? then Died else Aborted
  }

  function Distinct<T(==)>(s: seq<T>): bool {
    forall i, j | 0 <= i < j < |s| :: s[i] != s[j]
  }

  function StationIds(stations: seq<Station>): seq<nat> {
    seq(|stations|, i requires 0 <= i < |stations| => stations[i].id)
  }

  // None: the job may not run; the inner None: a transition raised.
  function EnterPublishing(job: Job): Option<Option<Job>> {
    match job.status
    case Publishing => Some(Some(job))
    case Draft =>
      var a := job.Transition(Preflight);
      if a == None then Some(None)
      else
        var b := a.value.Transition(AwaitingConfirmation);
        if b == None then Some(None) else Some(b.value.Transition(Publishing))
    case _ => None
  }

  function EnsureSnapshot(w: World, job: Job, source: string): (Signal, World) {
    var full := SnapshotRef(source, job.id);
    var (listed, w1) := Perform(w, QuerySnapshots);
    if !listed.Ok? then (listed, w1)
    else if full in w1.storage.snapshots && w1.storage.snapshots[full] == source then (Ok, w1)
    else
      var (created, w2) := Perform(w1, CreateSnapshot(source, SnapshotName(job.id)));
      if !created.Ok? then (created, w2)
      else (if full in w2.storage.snapshots && w2.storage.snapshots[full] == source then Ok else Raised, w2)
  }

  function CountVerified(results: seq<TargetResult>): (n: nat)
    ensures n <= |results|
    ensures n == |results| <==> forall r | r in results :: r.status == Verified
  {
    if results == [] then 0
    else (if results[0].status == Verified then 1 else 0) + CountVerified(results[1..])
  }

  function Conclude(job: Job, master: string, results: seq<TargetResult>): Outcome {
    var verified := CountVerified(results);
    var last := if verified == |results| then Completed
                else if verified == 0 then Failed else PartialFailure;
    var done := job.Transition(last);
    if done == None then IllegalTransition else Finished(done.value, master, results)
  }

  function Simulate(job: Job, plans: seq<Plan>): Outcome {
    var done := job.Transition(Completed);
    if done == None then IllegalTransition
    else
      Finished(done.value.(reason := Some("dry_run_simulation")), "dry-run:" + job.request.source,
               seq(|plans|, i requires 0 <= i < |plans| => ResultOf(plans[i], Simulated, None, false)))
  }

  function SwitchAll(w: World, job: Job, master: string, plans: seq<Plan>): (Outcome, World) {
    var switching := job.Transition(Switching);
    if switching == None then (IllegalTransition, w)
    else
      var (results, w2) := ApplyAll(w, master, plans);
      if results == None then (Died, w2)
      else
        var verifying := switching.value.Transition(Verifying);
        (if verifying == None then IllegalTransition else Conclude(verifying.value, master, results.value), w2)
  }

  function Write(w: World, job: Job, source: string, plans: seq<Plan>): (Outcome, World) {
    var (ensured, w1) := EnsureSnapshot(w, job, source);
    if !ensured.Ok? then (Interrupted(ensured), w1)
    else SwitchAll(w1, job, SnapshotRef(source, job.id), plans)
  }

  function ReadMappings(w: World): (Signal, World) {
    var (b, w2) := Perform(w, QueryTargets);
    if !b.Ok? then (b, w2)
    else
      var (c, w3) := Perform(w2, QueryTargetExtents);
      if !c.Ok? then (c, w3) else Perform(w3, QueryExtents)
  }

  datatype Located = Located(source: string, plans: seq<Plan>) | NotLocated(outcome: Outcome)

  // The read-only part: find the source, resolve every station, plan its clone.
  function Locate(w: World, job: Job, stations: seq<Station>): (Located, World) {
    var (listed, w1) := Perform(w, QueryDatasets);
    if !listed.Ok? then (NotLocated(Interrupted(listed)), w1)
    else
      var source := FindSource(w1.storage.datasets, job.request.source);
      if source == None then (NotLocated(Aborted), w1)
      else
        var (read, w2) := ReadMappings(w1);
        if !read.Ok? then (NotLocated(Interrupted(read)), w2)
        else
          var mappings := Resolve(w2.storage, stations);
          if mappings == None then (NotLocated(Aborted), w2)
          else (Located(source.value, BuildPlans(job, stations, mappings.value)), w2)
  }

  predicate Startable(stations: seq<Station>, confirmed: bool) {
    stations != [] && confirmed && Distinct(StationIds(stations))
  }

  function Execute(w: World, job: Job, stations: seq<Station>, confirmed: bool): (Outcome, World) {
    var entered := EnterPublishing(job);
    if !Startable(stations, confirmed) || entered == None then (Rejected, w)
    else if entered.value == None then (IllegalTransition, w)
    else
      var (located, w1) := Locate(w, job, stations);
      if located.NotLocated? then (located.outcome, w1)
      else if job.request.dryRun then (Simulate(entered.value.value, located.plans), w1)
      else Write(w1, entered.value.value, located.source, located.plans)
  }
}
