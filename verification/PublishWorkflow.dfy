// The workflow object: the loops and flags of the publish run, proved against its specification.
module PublishWorkflow {
  import opened Text
  import opened Naming
  import opened PublishJobs
  import opened Storage
  import Run = PublishRun

  // What a loop has collected so far, followed by what the rest of the recursion yields.
  function Extend<T>(prefix: seq<T>, rest: Option<seq<T>>): Option<seq<T>> {
    if rest == None then None else Some(prefix + rest.value)
  }

  lemma ExtendSteps<T>(prefix: seq<T>, rest: Option<seq<T>>)
    ensures Extend([], rest) == rest
    ensures Extend(prefix, Some([])) == Some(prefix)
    ensures forall x | rest.Some? :: Extend(prefix, Some([x] + rest.value)) == Extend(prefix + [x], rest)
  {
    if rest.Some? {
      assert [] + rest.value == rest.value;
      forall x ensures Extend(prefix, Some([x] + rest.value)) == Extend(prefix + [x], rest) {
        assert prefix + ([x] + rest.value) == prefix + [x] + rest.value;
      }
    }
    assert prefix + [] == prefix;
  }

  class Workflow {
    const client: Client

    constructor (client: Client)
      ensures this.client == client
    {
      this.client := client;
    }

    method ReadMappings(stations: seq<Run.Station>)
      returns (signal: Signal, mappings: Option<seq<Run.Mapping>>)
      modifies client
      ensures (signal, client.View()) == Run.ReadMappings(old(client.View()))
      ensures signal.Ok? ==> mappings == Run.Resolve(client.storage, stations)
    {
      mappings := None;
      signal := client.Query(QueryTargets);
      if !signal.Ok? { return; }
      signal := client.Query(QueryTargetExtents);
      if !signal.Ok? { return; }
      signal := client.Query(QueryExtents);
      if !signal.Ok? { return; }
      var found: seq<Run.Mapping> := [];
      var s := client.storage;
      assert stations[0..] == stations;
      ExtendSteps([], Run.Resolve(s, stations));
      for i := 0 to |stations|
        invariant (signal, client.View()) == Run.ReadMappings(old(client.View()))
        invariant |found| == i
        invariant Run.Resolve(s, stations) == Extend(found, Run.Resolve(s, stations[i..]))
      {
        assert stations[i..][1..] == stations[i + 1..];
        ExtendSteps(found, Run.Resolve(s, stations[i + 1..]));
        var mapping := Run.ResolveStation(s, stations[i]);
        if mapping == None { return signal, None; }
        found := found + [mapping.value];
      }
      ExtendSteps(found, None);
      mappings := Some(found);
    }

    method VerifyReadBack(plan: Run.Plan) returns (signal: Signal)
      modifies client
      ensures (signal, client.View()) == Run.VerifyReadBack(old(client.View()), plan)
    {
      signal := client.Query(QueryTargetExtents);
      if !signal.Ok? { return; }
      if |Run.Same(client.storage.associations, plan.mapping)| != 1 { return Raised; }
      signal := client.Query(QueryExtents);
      if !signal.Ok? { return; }
      var extents := client.storage.extents;
      if plan.mapping.extent !in extents || extents[plan.mapping.extent] != Some(plan.Device()) {
        signal := Raised;
      }
    }

    method ApplyStation(snapshot: string, plan: Run.Plan) returns (result: Option<TargetResult>)
      modifies client
      ensures (result, client.View()) == Run.ApplyStation(old(client.View()), snapshot, plan)
    {
      var writeAttempted, storageCreated := false, false;
      var signal := client.Query(QueryDatasets);
      if signal.Ok? && !HasDataset(client.storage.datasets, plan.destination) {
        signal := client.CloneSnapshot(snapshot, plan.destination);
      }
      if signal.Ok? {
        storageCreated := true;
        if plan.mapping.oldDevice != Some(plan.Device()) {
          writeAttempted := true;
          signal := client.UpdateExtentDevice(plan.mapping.extent, plan.Device());
        }
        if signal.Ok? {
          signal := VerifyReadBack(plan);
        }
      }
      assert Run.TrySwitch(old(client.View()), snapshot, plan)
             == Run.Attempt(signal, writeAttempted, storageCreated, client.View());
      if signal.Raised? {
        if !writeAttempted {
          return Some(Run.ResultOf(plan, Error, Some("target_failed"), storageCreated));
        }
        signal := VerifyReadBack(plan);
        if signal.Raised? {
          return Some(Run.ResultOf(plan, RecoveryRequired, Some("extent_update_unknown"), storageCreated));
        }
      }
      result := if signal.Crashed? then None else Some(Run.ResultOf(plan, Verified, None, storageCreated));
    }

    method EnsureSnapshot(job: Job, source: string) returns (signal: Signal)
      modifies client
      ensures (signal, client.View()) == Run.EnsureSnapshot(old(client.View()), job, source)
    {
      var full := SnapshotRef(source, job.id);
      signal := client.Query(QuerySnapshots);
      if !signal.Ok? { return; }
      if full in client.storage.snapshots && client.storage.snapshots[full] == source { return; }
      signal := client.CreateSnapshot(source, SnapshotName(job.id));
      if !signal.Ok? { return; }
      if full !in client.storage.snapshots || client.storage.snapshots[full] != source {
        signal := Raised;
      }
    }

    method ApplyAll(snapshot: string, plans: seq<Run.Plan>) returns (results: Option<seq<TargetResult>>)
      modifies client
      ensures (results, client.View()) == Run.ApplyAll(old(client.View()), snapshot, plans)
    {
      ghost var start := client.View();
      var done: seq<TargetResult> := [];
      assert plans[0..] == plans;
      ExtendSteps([], Run.ApplyAll(start, snapshot, plans).0);
      for i := 0 to |plans|
        invariant |done| == i
        invariant var (rest, end) := Run.ApplyAll(client.View(), snapshot, plans[i..]);
                  Run.ApplyAll(start, snapshot, plans)
                  == (Extend(done, rest), end)
      {
        assert plans[i..][1..] == plans[i + 1..];
        var result := ApplyStation(snapshot, plans[i]);
        ExtendSteps(done, Run.ApplyAll(client.View(), snapshot, plans[i + 1..]).0);
        if result == None { return None; }
        done := done + [result.value];
      }
      ExtendSteps(done, None);
      results := Some(done);
    }

    method Execute(job: Job, stations: seq<Run.Station>, confirmed: bool) returns (outcome: Run.Outcome)
      modifies client
      ensures (outcome, client.View()) == Run.Execute(old(client.View()), job, stations, confirmed)
    {
      if stations == [] || !confirmed || !Run.Distinct(Run.StationIds(stations)) { return Run.Rejected; }
      var entered := Run.EnterPublishing(job);
      if entered == None { return Run.Rejected; }
      if entered.value == None { return Run.IllegalTransition; }
      var current := entered.value.value;
      ghost var start := client.View();
      var signal := client.Query(QueryDatasets);
      if !signal.Ok? { return Run.Interrupted(signal); }
      var source := Run.FindSource(client.storage.datasets, job.request.source);
      if source == None { return Run.Aborted; }
      var mappings;
      signal, mappings := ReadMappings(stations);
      if !signal.Ok? { return Run.Interrupted(signal); }
      if mappings == None { return Run.Aborted; }
      var plans := Run.BuildPlans(job, stations, mappings.value);
      assert Run.Locate(start, job, stations) == (Run.Located(source.value, plans), client.View());
      if job.request.dryRun { return Run.Simulate(current, plans); }
      outcome := Write(current, source.value, plans);
    }

    method Write(job: Job, source: string, plans: seq<Run.Plan>) returns (outcome: Run.Outcome)
      modifies client
      ensures (outcome, client.View()) == Run.Write(old(client.View()), job, source, plans)
    {
      var signal := EnsureSnapshot(job, source);
      if !signal.Ok? { return Run.Interrupted(signal); }
      var switching := job.Transition(Switching);
      if switching == None { return Run.IllegalTransition; }
      var results := ApplyAll(SnapshotRef(source, job.id), plans);
      if results == None { return Run.Died; }
      var verifying := switching.value.Transition(Verifying);
      if verifying == None { return Run.IllegalTransition; }
      outcome := Run.Conclude(verifying.value, SnapshotRef(source, job.id), results.value);
    }
  }
}
