// How recorded clones are named: every row a run leaves in the table carries the name its job gave the clone.
module CloneNames {
  import opened Text
  import opened Naming
  import opened PublishJobs
  import opened Storage
  import opened Artifacts
  import PublishRun
  import PublishResults

  // The clone is named by a run of the row's job, for some display name, and the mapping is its device.
  ghost predicate Minted(a: Artifact) {
    && a.mappingRef == DeviceOf(a.dataset)
    && exists name :: a.dataset == DestinationDataset(a.source, name, a.job)
  }

  ghost predicate AllMinted(rows: seq<Artifact>) {
    forall k | 0 <= k < |rows| :: Minted(rows[k])
  }

  // The new mapping of a result is the device of a clone of its job.
  ghost predicate NamesClone(job: Job, r: TargetResult) {
    exists name :: r.newMapping == Some(DeviceOf(DestinationDataset(job.request.source, name, job.id)))
  }

  ghost predicate AllNamed(job: Job, results: seq<TargetResult>) {
    forall r | r in results :: NamesClone(job, r)
  }

  // A clone is never its own source.
  lemma MintedExtends(a: Artifact)
    requires Minted(a)
    ensures a.source < a.dataset
  {
    var name :| a.dataset == DestinationDataset(a.source, name, a.job);
    DestinationAccepted(a.source, name, a.job);
  }

  // Clones of jobs whose identifiers differ in the digits the name keeps are different.
  lemma MintedDiffer(a: Artifact, source: string, name: string, job: HexId)
    requires Minted(a) && a.job[..12] != job[..12]
    ensures a.dataset != DestinationDataset(source, name, job)
  {
    var other :| a.dataset == DestinationDataset(a.source, other, a.job);
    DestinationEnds(a.source, other, a.job);
    DestinationEnds(source, name, job);
  }

  // ---- every result of a run names a clone of its job ----

  ghost predicate Destined(job: Job, p: PublishRun.Plan) {
    exists name :: p.destination == DestinationDataset(job.request.source, name, job.id)
  }

  lemma {:induction false} ApplyAllNames(w: World, job: Job, snapshot: string, plans: seq<PublishRun.Plan>)
    requires forall p | p in plans :: Destined(job, p)
    ensures var results := PublishRun.ApplyAll(w, snapshot, plans).0;
            results.Some? ==> AllNamed(job, results.value)
    decreases plans
  {
    if plans != [] {
      PublishResults.ApplyHonest(w, snapshot, plans[0]);
      var (first, w1) := PublishRun.ApplyStation(w, snapshot, plans[0]);
      assert plans[0] in plans;
      if first.Some? {
        assert first.value.newMapping == Some(DeviceOf(plans[0].destination));
        assert Destined(job, plans[0]);
        ApplyAllNames(w1, job, snapshot, plans[1..]);
      }
    }
  }

  lemma RunNames(w: World, job: Job, stations: seq<PublishRun.Station>)
    requires !job.request.dryRun
    ensures var outcome := PublishRun.Execute(w, job, stations, true).0;
            outcome.Finished? ==> AllNamed(job, outcome.targets)
  {
    var outcome := PublishRun.Execute(w, job, stations, true).0;
    if outcome.Finished? {
      PublishResults.FinishedFromPlans(w, job, stations, true);
      var plans := PublishResults.PlansAt(w.storage, job, stations);
      var start :| PublishRun.ApplyAll(start, outcome.master, plans).0 == Some(outcome.targets);
      forall p | p in plans ensures Destined(job, p) {
        PlanNamed(w.storage, job, stations, p);
      }
      ApplyAllNames(start, job, outcome.master, plans);
    }
  }

  lemma PlanNamed(s: Storage, job: Job, stations: seq<PublishRun.Station>, p: PublishRun.Plan)
    ensures p in PublishResults.PlansAt(s, job, stations) ==> Destined(job, p)
  {
    if p in PublishResults.PlansAt(s, job, stations) {
      var i :| 0 <= i < |stations| && PublishResults.PlansAt(s, job, stations)[i] == p;
      assert p.destination == DestinationDataset(job.request.source, stations[i].displayName, job.id);
    }
  }

  // ---- and so does every row, under every interleaving of commits ----

  lemma BuiltMinted(job: Job, r: TargetResult, master: string, id: nat, now: int)
    requires r.newMapping.Some? && NamesClone(job, r)
    ensures Minted(BuildArtifact(job, r, master, id, now))
  {
    var name :| r.newMapping == Some(DeviceOf(DestinationDataset(job.request.source, name, job.id)));
    DeviceAccepted(DestinationDataset(job.request.source, name, job.id));
    assert BuildArtifact(job, r, master, id, now).dataset == DestinationDataset(job.request.source, name, job.id);
  }

  // An update that keeps the naming columns of a row keeps its name minted.
  lemma SameNames(rows: seq<Artifact>, after: seq<Artifact>)
    requires AllMinted(rows) && |after| == |rows|
    requires forall k | 0 <= k < |rows| ::
               after[k].job == rows[k].job && after[k].source == rows[k].source
               && after[k].dataset == rows[k].dataset && after[k].mappingRef == rows[k].mappingRef
    ensures AllMinted(after)
  {
    forall k | 0 <= k < |after| ensures Minted(after[k]) {
      assert Minted(rows[k]);
    }
  }

  lemma SaveMinted(rows: seq<Artifact>, a: Artifact)
    requires AllMinted(rows) && Minted(a)
    ensures AllMinted(Save(rows, a))
  {
    var at := FindKey(rows, a.job, a.station);
    if at.Some? {
      assert Minted(Overwrite(rows[at.value], a));
    }
  }

  lemma PersistOneMinted(rows: seq<Artifact>, job: Job, r: TargetResult, master: string, id: nat, now: int)
    requires AllMinted(rows) && NamesClone(job, r)
    ensures AllMinted(PersistOne(rows, job, r, master, id, now))
  {
    if Recorded(job, r) {
      var a := BuildArtifact(job, r, master, id, now);
      BuiltMinted(job, r, master, id, now);
      SameNames(rows, Retire(rows, a.station, a.id));
      SaveMinted(Retire(rows, a.station, a.id), a);
    }
  }

  lemma PersistMinted(rows: seq<Artifact>, job: Job, results: seq<TargetResult>, master: string, firstId: nat, now: int)
    requires AllMinted(rows) && AllNamed(job, results)
    ensures AllMinted(Persist(rows, job, results, master, firstId, now))
  {
    var inv := (u: Table) => AllMinted(u.rows);
    forall u, r | inv(u) && r in results ensures inv(PersistNext(u, job, r, master, now)) {
      PersistOneMinted(u.rows, job, r, master, u.nextId, now);
    }
    PersistInduction(inv, Table(rows, firstId), job, results, master, now);
  }

  ghost predicate NamedCommit(c: Commit) {
    c.PersistCommit? ==> AllNamed(c.job, c.results)
  }

  lemma CommitKeepsNames(t: Table, c: Commit)
    requires AllMinted(t.rows) && NamedCommit(c)
    ensures AllMinted(Commit1(t, c).rows)
  {
    match c {
      case PersistCommit(job, results, master, now) => PersistMinted(t.rows, job, results, master, t.nextId, now);
      case SetCurrentCommit(station, id) => SameNames(t.rows, SetCurrent(t.rows, station, id));
      case DeletedCommit(id, now) => SameNames(t.rows, MarkDeleted(t.rows, id, now));
      case FailedCommit(id, error) => SameNames(t.rows, MarkFailed(t.rows, id, error));
    }
  }

  ghost predicate NamedCommits(commits: seq<Commit>) {
    forall c | c in commits :: NamedCommit(c)
  }

  // Whatever results runs persisted in which order, each row names its own job's clone by its device.
  lemma {:induction false} NamesAlways(commits: seq<Commit>)
    requires NamedCommits(commits)
    ensures AllMinted(CommitAll(EMPTY_TABLE, commits).rows)
  {
    if commits != [] {
      var last := |commits| - 1;
      assert commits[last] in commits && forall c | c in commits[..last] :: c in commits;
      NamesAlways(commits[..last]);
      CommitKeepsNames(CommitAll(EMPTY_TABLE, commits[..last]), commits[last]);
    }
  }
}
