// Runs that the registry allows and an operator would not expect, each from the empty table.
module CleanupRuns {
  import opened Text
  import opened Naming
  import opened PublishJobs
  import opened Storage
  import opened Artifacts
  import opened CloneNames
  import opened Cleanup
  import opened CleanupLive
  import opened CleanupQueue
  import opened Reconcile
  import opened PublishReconcile

  const SOURCE := "games"

  function JobOf(id: HexId): Job {
    Job(id, "", 0, Request("", SOURCE, None, false, false, None), Publishing, None, Some(true))
  }

  function Clone(id: HexId, name: string): string { DestinationDataset(SOURCE, name, id) }

  function ResultFor(station: nat, id: HexId, name: string, status: TargetStatus): TargetResult {
    TargetResult(station, status, None, Some(DeviceOf(Clone(id, name))), None, true)
  }

  function RowFor(n: nat, id: HexId, station: nat, name: string, current: bool): Artifact {
    Artifact(n, id, station, SOURCE, Clone(id, name), "", DeviceOf(Clone(id, name)), 0,
             if current then Current else Retired, current, None, None)
  }

  // Persisting the first result of a job for a station retires the station's rows and adds one.
  lemma PersistNew(rows: seq<Artifact>, id: HexId, station: nat, name: string, status: TargetStatus, n: nat)
    requires forall r | r in rows :: r.job != id || r.station != station
    ensures PersistOne(rows, JobOf(id), ResultFor(station, id, name, status), "", n, 0)
         == Retire(rows, station, n) + [RowFor(n, id, station, name, status == Verified)]
    ensures NamesClone(JobOf(id), ResultFor(station, id, name, status))
  {
    DeviceAccepted(Clone(id, name));
    var r := ResultFor(station, id, name, status);
    assert r.newMapping.value[0] == 'z';
    assert BuildArtifact(JobOf(id), r, "", n, 0) == RowFor(n, id, station, name, status == Verified);
    var retired := Retire(rows, station, n);
    forall x | x in retired ensures x.job != id || x.station != station {
      var k :| 0 <= k < |retired| && retired[k] == x;
      assert rows[k] in rows;
    }
  }

  // A job with one station.
  lemma PersistSingle(rows: seq<Artifact>, id: HexId, station: nat, name: string, status: TargetStatus, n: nat)
    requires forall r | r in rows :: r.job != id || r.station != station
    ensures Persist(rows, JobOf(id), [ResultFor(station, id, name, status)], "", n, 0)
         == Retire(rows, station, n) + [RowFor(n, id, station, name, status == Verified)]
    ensures AllNamed(JobOf(id), [ResultFor(station, id, name, status)])
  {
    PersistNew(rows, id, station, name, status, n);
    var results := [ResultFor(station, id, name, status)];
    assert results[..0] == [];
    assert Persist(rows, JobOf(id), [], "", n, 0) == rows;
  }

  // The second station of a job, after the first one's row.
  lemma PersistSecond(id: HexId, a: string, b: string)
    ensures PersistOne([RowFor(0, id, 1, a, true)], JobOf(id), ResultFor(2, id, b, Verified), "", 1, 0)
         == [RowFor(0, id, 1, a, true), RowFor(1, id, 2, b, true)]
    ensures NamesClone(JobOf(id), ResultFor(2, id, b, Verified))
  {
    var one := [RowFor(0, id, 1, a, true)];
    PersistNew(one, id, 2, b, Verified, 1);
    assert Retire(one, 2, 1) == one;
    assert one + [RowFor(1, id, 2, b, true)] == [RowFor(0, id, 1, a, true), RowFor(1, id, 2, b, true)];
  }

  lemma PersistFirst(id: HexId, a: string)
    ensures Persist([], JobOf(id), [ResultFor(1, id, a, Verified)], "", 0, 0) == [RowFor(0, id, 1, a, true)]
    ensures NamesClone(JobOf(id), ResultFor(1, id, a, Verified))
  {
    PersistSingle([], id, 1, a, Verified, 0);
    assert Retire([], 1, 0) + [RowFor(0, id, 1, a, true)] == [RowFor(0, id, 1, a, true)];
    assert ResultFor(1, id, a, Verified) in [ResultFor(1, id, a, Verified)];
  }

  // A job with two stations, on an empty table.
  lemma PersistPair(id: HexId, a: string, b: string)
    ensures var results := [ResultFor(1, id, a, Verified), ResultFor(2, id, b, Verified)];
            && Persist([], JobOf(id), results, "", 0, 0) == [RowFor(0, id, 1, a, true), RowFor(1, id, 2, b, true)]
            && AllNamed(JobOf(id), results)
  {
    var results := [ResultFor(1, id, a, Verified), ResultFor(2, id, b, Verified)];
    PersistFirst(id, a);
    PersistSecond(id, a, b);
    assert results[..1] == [ResultFor(1, id, a, Verified)];
    PersistLast([], JobOf(id), results, "", 0, 0);
  }

  lemma GamesValid(id: HexId, name: string)
    ensures ValidDataset(Clone(id, name))
  {
    SplitWithoutSeparator(SOURCE, '/');
    DestinationAccepted(SOURCE, name, id);
  }

  lemma StepOnce(s: Registry, acts: seq<Act>, a: Act)
    ensures StepAll(s, acts + [a]) == Step(StepAll(s, acts), a)
    ensures EnabledAll(s, acts + [a]) <==> EnabledAll(s, acts) && Enabled(StepAll(s, acts).table, a)
  {
    assert (acts + [a])[..|acts|] == acts;
  }

  function Start(storage: Storage): Registry { Registry(EMPTY_TABLE, World(storage, [], [])) }

  // The acts are possible in turn from the empty table, lead to these rows, and do not touch the storage.
  ghost predicate Reaches(storage: Storage, acts: seq<Act>, rows: seq<Artifact>) {
    && EnabledAll(Start(storage), acts)
    && StepAll(Start(storage), acts).table.rows == rows && StepAll(Start(storage), acts).world == World(storage, [], [])
  }

  lemma FirstPersist(storage: Storage, job: Job, results: seq<TargetResult>)
    requires AllNamed(job, results)
    ensures Reaches(storage, [ActPersist(job, results, "", 0)], Persist([], job, results, "", 0, 0))
    ensures StepAll(Start(storage), [ActPersist(job, results, "", 0)]).table.nextId == |results|
  {
    StepOnce(Start(storage), [], ActPersist(job, results, "", 0));
    assert [] + [ActPersist(job, results, "", 0)] == [ActPersist(job, results, "", 0)];
  }

  lemma NextPersist(storage: Storage, acts: seq<Act>, rows: seq<Artifact>, job: Job, results: seq<TargetResult>, n: nat)
    requires Reaches(storage, acts, rows) && AllNamed(job, results)
    requires StepAll(Start(storage), acts).table.nextId == n
    ensures Reaches(storage, acts + [ActPersist(job, results, "", 0)], Persist(rows, job, results, "", n, 0))
  {
    StepOnce(Start(storage), acts, ActPersist(job, results, "", 0));
  }

  // A periodic pass whose batch is the first row asks for its clone's deletion.
  lemma PassDeletesFirst(storage: Storage, acts: seq<Act>, rows: seq<Artifact>)
    requires Reaches(storage, acts, rows) && rows != [] && Expired(rows[0], 0) && ValidDataset(rows[0].dataset)
    ensures var s, pass := StepAll(Start(storage), acts), ActExpiredPass([rows[0]], 0, 0, [], "");
            && EnabledAll(Start(storage), acts + [pass])
            && Sends(s.world, StepAll(Start(storage), acts + [pass]).world, rows[0].dataset)
  {
    StepOnce(Start(storage), acts, ActExpiredPass([rows[0]], 0, 0, [], ""));
    QuietPassSends(World(storage, [], []), rows, [rows[0]], 0, "", rows[0]);
  }

  lemma NotItsSource(id: HexId, name: string)
    ensures Clone(id, name) != SOURCE
  {
    DestinationAccepted(SOURCE, name, id);
  }

  // Two stations publish in one job; later the first one publishes again.
  lemma PairThenOne(storage: Storage, first: HexId, second: HexId, a: string, b: string) returns (acts: seq<Act>)
    requires first != second
    ensures Reaches(storage, acts, [RowFor(0, first, 1, a, false), RowFor(1, first, 2, b, true),
                                    RowFor(2, second, 1, a, true)])
  {
    var pair := [ResultFor(1, first, a, Verified), ResultFor(2, first, b, Verified)];
    var later := [ResultFor(1, second, a, Verified)];
    var rows := [RowFor(0, first, 1, a, true), RowFor(1, first, 2, b, true)];
    PersistPair(first, a, b);
    FirstPersist(storage, JobOf(first), pair);
    acts := [ActPersist(JobOf(first), pair, "", 0)];
    PersistSingle(rows, second, 1, a, Verified, 2);
    RetireFirst(rows[0], rows[1], RowFor(0, first, 1, a, false));
    NextPersist(storage, acts, rows, JobOf(second), later, 2);
    acts := acts + [ActPersist(JobOf(second), later, "", 0)];
    assert [RowFor(0, first, 1, a, false), rows[1]] + [RowFor(2, second, 1, a, true)]
        == [RowFor(0, first, 1, a, false), RowFor(1, first, 2, b, true), RowFor(2, second, 1, a, true)];
  }

  lemma RetireFirst(x: Artifact, y: Artifact, retired: Artifact)
    requires x.station == 1 && y.station == 2 && x.id != 2 && x.isCurrent && retired == x.(isCurrent := false, status := Retired)
    ensures Retire([x, y], 1, 2) == [retired, y]
  {
  }

  // Two stations whose names give one slug share a clone. When one of them publishes again its row is retired,
  // and a periodic pass deletes the clone that the other station's current row names.
  lemma SharedCloneIsDeleted(storage: Storage, first: HexId, second: HexId) returns (acts: seq<Act>, pass: Act)
    requires first != second
    ensures pass.ActExpiredPass?
    ensures EnabledAll(Start(storage), acts + [pass])
    ensures var s := StepAll(Start(storage), acts);
            exists c | c in s.table.rows :: c.isCurrent && c.station == 2
                       && Sends(s.world, StepAll(Start(storage), acts + [pass]).world, c.dataset)
  {
    var rows := [RowFor(0, first, 1, "PC 1", false), RowFor(1, first, 2, "PC-1", true), RowFor(2, second, 1, "PC 1", true)];
    acts := PairThenOne(storage, first, second, "PC 1", "PC-1");
    GamesValid(first, "PC 1");
    NotItsSource(first, "PC 1");
    pass := ActExpiredPass([rows[0]], 0, 0, [], "");
    PassDeletesFirst(storage, acts, rows);
    SameSlug(first);
    assert rows[1] in rows && rows[1].dataset == rows[0].dataset;
  }

  lemma SameSlug(id: HexId)
    ensures Clone(id, "PC 1") == Clone(id, "PC-1")
  {
    DestinationInjective(SOURCE, "PC 1", "PC-1", id);
    DistinctNamesMayShareAClone(id);
    DestinationInjective("games", "PC 1", "PC-1", id);
  }

  // A publish whose switch stays unconfirmed retires the previous row although the extent still uses its clone,
  // and a periodic pass then deletes the clone in use.
  lemma LiveCloneIsDeleted(storage: Storage, first: HexId, second: HexId) returns (acts: seq<Act>, pass: Act)
    requires first != second
    requires 1 in storage.extents && storage.extents[1] == Some(DeviceOf(Clone(first, "PC")))
    ensures pass.ActExpiredPass?
    ensures EnabledAll(Start(storage), acts + [pass])
    ensures var s := StepAll(Start(storage), acts);
            exists dataset :: BacksExtent(s.world.storage.extents, dataset)
                              && Sends(s.world, StepAll(Start(storage), acts + [pass]).world, dataset)
  {
    var results, later := [ResultFor(1, first, "PC", Verified)], [ResultFor(1, second, "PC", RecoveryRequired)];
    var rows := [RowFor(0, first, 1, "PC", true)];
    PersistSingle([], first, 1, "PC", Verified, 0);
    assert Retire([], 1, 0) + rows == rows;
    PersistSingle(rows, second, 1, "PC", RecoveryRequired, 1);
    FirstPersist(storage, JobOf(first), results);
    acts := [ActPersist(JobOf(first), results, "", 0)];
    NextPersist(storage, acts, rows, JobOf(second), later, 1);
    acts := acts + [ActPersist(JobOf(second), later, "", 0)];
    var all := Retire(rows, 1, 1) + [RowFor(1, second, 1, "PC", false)];
    assert all[0] == RowFor(0, first, 1, "PC", false);
    GamesValid(first, "PC");
    NotItsSource(first, "PC");
    pass := ActExpiredPass([all[0]], 0, 0, [], "");
    PassDeletesFirst(storage, acts, all);
    assert BacksExtent(storage.extents, Clone(first, "PC"));
  }

  // ---- the failure mark that comes too late, and twins at the gate ----

  lemma CommitOnce(commits: seq<Commit>, c: Commit)
    ensures CommitAll(EMPTY_TABLE, commits + [c]) == Commit1(CommitAll(EMPTY_TABLE, commits), c)
  {
    assert (commits + [c])[..|commits|] == commits;
  }

  lemma PublishCommit(commits: seq<Commit>, t: Table, id: HexId) returns (more: seq<Commit>)
    requires NamedCommits(commits) && CommitAll(EMPTY_TABLE, commits) == t
    requires forall r | r in t.rows :: r.job != id
    ensures NamedCommits(more)
    ensures CommitAll(EMPTY_TABLE, more)
         == Table(Retire(t.rows, 1, t.nextId) + [RowFor(t.nextId, id, 1, "PC", true)], t.nextId + 1)
  {
    var results := [ResultFor(1, id, "PC", Verified)];
    var c := PersistCommit(JobOf(id), results, "", 0);
    PersistSingle(t.rows, id, 1, "PC", Verified, t.nextId);
    CommitOnce(commits, c);
    more := commits + [c];
  }

  // Two publishes of one station: the first clone is retired, the second current.
  lemma TwoPublishes(first: HexId, second: HexId) returns (commits: seq<Commit>)
    requires first != second
    ensures NamedCommits(commits)
    ensures CommitAll(EMPTY_TABLE, commits)
         == Table([RowFor(0, first, 1, "PC", false), RowFor(1, second, 1, "PC", true)], 2)
  {
    var row := RowFor(0, first, 1, "PC", true);
    commits := PublishCommit([], EMPTY_TABLE, first);
    assert Retire([], 1, 0) + [row] == [row];
    commits := PublishCommit(commits, Table([row], 1), second);
    assert Retire([row], 1, 1) == [RowFor(0, first, 1, "PC", false)];
  }

  // A clone selected while retired becomes current again before its failed deletion is recorded: the row ends
  // flagged and CLEANUP_FAILED at once, which is consistent but not coherent.
  lemma LateFailureMark(first: HexId, second: HexId, error: string) returns (commits: seq<Commit>)
    requires first != second
    ensures NamedCommits(commits)
    ensures var rows := CommitAll(EMPTY_TABLE, commits).rows;
            && AllConsistent(rows) && !AllCoherent(rows)
            && exists r | r in rows :: r.isCurrent && r.status == CleanupFailed
  {
    commits := TwoPublishes(first, second);
    commits := ChosenAndFailed(commits, RowFor(0, first, 1, "PC", false), RowFor(1, second, 1, "PC", true), error);
  }

  // The first of two rows of a station is made current, then marked failed.
  lemma ChosenAndFailed(commits: seq<Commit>, older: Artifact, newer: Artifact, error: string)
    returns (more: seq<Commit>)
    requires NamedCommits(commits) && CommitAll(EMPTY_TABLE, commits) == Table([older, newer], 2)
    requires older.id == 0 && newer.id == 1 && older.station == newer.station == 1
    requires Coherent(older) && Coherent(newer) && older.status != Deleted && newer.status != Deleted
    ensures NamedCommits(more)
    ensures var rows := CommitAll(EMPTY_TABLE, more).rows;
            && AllConsistent(rows) && !AllCoherent(rows)
            && exists r | r in rows :: r.isCurrent && r.status == CleanupFailed
  {
    var chosen := SetCurrent([older, newer], 1, Some(0));
    var once := commits + [SetCurrentCommit(1, Some(0))];
    more := once + [FailedCommit(0, error)];
    CommitOnce(commits, SetCurrentCommit(1, Some(0)));
    CommitOnce(once, FailedCommit(0, error));
    LateMark(chosen, error);
  }

  lemma LateMark(rows: seq<Artifact>, error: string)
    requires |rows| == 2 && rows[0].id == 0 && rows[0].isCurrent && AllConsistent(rows) && rows[0].deletedAt == None
    ensures var marked := MarkFailed(rows, 0, error);
            && AllConsistent(marked) && !AllCoherent(marked)
            && exists r | r in marked :: r.isCurrent && r.status == CleanupFailed
  {
    var marked := MarkFailed(rows, 0, error);
    assert marked == [FailedRow(rows[0], error), rows[1]];
    assert Consistent(rows[0]) && Consistent(rows[1]);
    assert marked[0] in marked && !Coherent(marked[0]);
  }

  // Two jobs whose identifiers agree in the 12 digits a clone name keeps give a station two rows for one clone,
  // and the gate lets an operator hand both over while the station's extent uses it.
  lemma TwinClonesSlipThrough(first: HexId, second: HexId) returns (commits: seq<Commit>, live: map<nat, string>)
    requires first != second && first[..12] == second[..12]
    ensures NamedCommits(commits) && live == map[1 := DeviceOf(Clone(first, "PC"))]
    ensures var selected := ById(CommitAll(EMPTY_TABLE, commits).rows, [0, 1]);
            && (forall id | id in [0, 1] :: HasId(Reconciled(selected, live), id))
            && Judge(Reconciled(selected, live), [0, 1]) == Accepted([0, 1])
  {
    commits := TwoPublishes(first, second);
    live := map[1 := DeviceOf(Clone(first, "PC"))];
    assert Clone(first, "PC") == Clone(second, "PC");
    DestinationEnds(SOURCE, "PC", first);
    TwinsPass(RowFor(0, first, 1, "PC", false), RowFor(1, second, 1, "PC", true), Clone(first, "PC"), live);
  }

  // Two rows of a station for the clone in use.
  lemma TwinsPass(a: Artifact, b: Artifact, dataset: string, live: map<nat, string>)
    requires a.id == 0 && b.id == 1 && a.station == b.station == 1 && a.deletedAt == b.deletedAt == None
    requires a.mappingRef == b.mappingRef == DeviceOf(dataset) && Trimmed(dataset) && live == map[1 := DeviceOf(dataset)]
    ensures var selected := ById([a, b], [0, 1]);
            && (forall id | id in [0, 1] :: HasId(Reconciled(selected, live), id))
            && Judge(Reconciled(selected, live), [0, 1]) == Accepted([0, 1])
  {
    CanonicalDevice(dataset);
    assert a in [a, b] && b in [a, b];
    DuplicatesSlipThrough([a, b], [0, 1], a, b, live);
  }
}
