// Retention: which clones a cleanup pass may delete, and what its marks leave in the table.
module Cleanup {
  import opened Text
  import opened PublishJobs
  import opened Storage
  import opened Artifacts
  import opened CloneNames

  // ---- selection ----

  // What every pass asks of a row.
  predicate Selectable(a: Artifact) {
    !a.isCurrent && a.status in {Retired, CleanupFailed}
  }

  // The guard of a pass over explicitly chosen rows.
  predicate Deletable(a: Artifact) { Selectable(a) && a.deletedAt == None }

  // The guard of the periodic pass.
  predicate Expired(a: Artifact, before: int) {
    Selectable(a) && a.dataset != a.source && a.createdAt <= before
  }

  function Chosen(rows: seq<Artifact>, ids: seq<nat>): seq<Artifact> {
    if rows == [] then []
    else (if rows[0].id in ids && Deletable(rows[0]) then [rows[0]] else []) + Chosen(rows[1..], ids)
  }

  function ExpiredRows(rows: seq<Artifact>, before: int): seq<Artifact> {
    if rows == [] then []
    else (if Expired(rows[0], before) then [rows[0]] else []) + ExpiredRows(rows[1..], before)
  }

  // The index of the first row with the least creation time.
  function Oldest(rows: seq<Artifact>): (r: nat)
    requires rows != []
    ensures r < |rows| && forall k | 0 <= k < |rows| :: rows[r].createdAt <= rows[k].createdAt
  {
    if |rows| == 1 then 0
    else
      var rest := Oldest(rows[1..]) + 1;
      if rows[0].createdAt <= rows[rest].createdAt then 0 else rest
  }

  predicate OldestFirst(rows: seq<Artifact>) {
    forall i, j | 0 <= i < j < |rows| :: rows[i].createdAt <= rows[j].createdAt
  }

  predicate NoYounger(batch: seq<Artifact>, rest: seq<Artifact>) {
    forall i, j | 0 <= i < |batch| && 0 <= j < |rest| :: batch[i].createdAt <= rest[j].createdAt
  }

  // `batch` splits the expired rows: everything left out is at least as young.
  ghost predicate Splits(expired: seq<Artifact>, batch: seq<Artifact>, rest: seq<Artifact>) {
    && multiset(expired) == multiset(batch) + multiset(rest)
    && OldestFirst(batch) && NoYounger(batch, rest)
  }

  lemma WithoutOne(s: seq<Artifact>, at: nat)
    requires at < |s|
    ensures multiset(s) == multiset(Without(s, at)) + multiset{s[at]}
    ensures forall a | a in Without(s, at) :: a in s
  {
    assert s == s[..at] + [s[at]] + s[at + 1..];
  }

  lemma TakeOldest(expired: seq<Artifact>, batch: seq<Artifact>, rest: seq<Artifact>)
    requires rest != [] && Splits(expired, batch, rest)
    ensures Splits(expired, batch + [rest[Oldest(rest)]], Without(rest, Oldest(rest)))
  {
    var at := Oldest(rest);
    var less, more := Without(rest, at), batch + [rest[at]];
    WithoutOne(rest, at);
    assert multiset(more) == multiset(batch) + multiset{rest[at]};
    forall i, j | 0 <= i < |more| && 0 <= j < |less| ensures more[i].createdAt <= less[j].createdAt {
      assert less[j] in rest;
      var k :| 0 <= k < |rest| && rest[k] == less[j];
    }
  }

  // The oldest expired rows, oldest first, as many as the limit allows.
  method ListCleanupCandidates(rows: seq<Artifact>, before: int, limit: nat)
    returns (batch: seq<Artifact>, ghost rest: seq<Artifact>)
    ensures Splits(ExpiredRows(rows, before), batch, rest)
    ensures |batch| <= limit && (rest == [] || |batch| == limit)
  {
    var left := ExpiredRows(rows, before);
    batch := [];
    while left != [] && |batch| < limit
      invariant |batch| <= limit
      invariant Splits(ExpiredRows(rows, before), batch, left)
      decreases |left|
    {
      TakeOldest(ExpiredRows(rows, before), batch, left);
      var at := Oldest(left);
      batch, left := batch + [left[at]], Without(left, at);
    }
    rest := left;
  }

  // ---- one pass ----

  datatype PassResult = PassResult(died: bool, deleted: nat, failed: nat, world: World, rows: seq<Artifact>)

  function Pass(w: World, rows: seq<Artifact>, candidates: seq<Artifact>, now: int, detail: string): PassResult
    decreases candidates
  {
    if candidates == [] then PassResult(false, 0, 0, w, rows)
    else
      var a := candidates[0];
      var (signal, w1) := Perform(w, DeleteDataset(a.dataset));
      match signal
      case Crashed => PassResult(true, 0, 0, w1, rows)
      case Ok =>
        var rest := Pass(w1, MarkDeleted(rows, a.id, now), candidates[1..], now, detail);
        rest.(deleted := rest.deleted + 1)
      case Raised =>
        var rest := Pass(w1, MarkFailed(rows, a.id, detail), candidates[1..], now, detail);
        rest.(failed := rest.failed + 1)
  }

  datatype Report = Report(inspected: nat, deleted: nat, failed: nat, dryRun: bool)

  // What a pass works on: the chosen rows that may go, or the oldest expired ones as far as the batch reaches.
  ghost predicate Selected(rows: seq<Artifact>, ids: Option<seq<nat>>, before: int, limit: nat,
                           candidates: seq<Artifact>)
  {
    match ids
    case Some(list) => candidates == Chosen(rows, list)
    case None =>
      exists rest :: Splits(ExpiredRows(rows, before), candidates, rest)
                     && |candidates| <= limit && (rest == [] || |candidates| == limit)
  }

  class DatasetCleanup {
    const table: ArtifactTable
    const client: Client
    const retention: int
    const batchSize: nat
    const applyEnabled: bool

    constructor (table: ArtifactTable, client: Client, retention: int, batchSize: nat, applyEnabled: bool)
      ensures this.table == table && this.client == client && this.applyEnabled == applyEnabled
      ensures this.retention == retention && this.batchSize == batchSize
    {
      this.table, this.client, this.applyEnabled := table, client, applyEnabled;
      this.retention, this.batchSize := retention, batchSize;
    }

    method Select(ids: Option<seq<nat>>, now: int) returns (candidates: seq<Artifact>)
      ensures Selected(table.rows, ids, now - retention, batchSize, candidates)
    {
      if ids.Some? {
        candidates := Chosen(table.rows, ids.value);
      } else {
        ghost var rest;
        candidates, rest := ListCleanupCandidates(table.rows, now - retention, batchSize);
      }
    }

    // None when the process died inside a delete.
    method Execute(ids: Option<seq<nat>>, now: int, detail: string)
      returns (report: Option<Report>, ghost candidates: seq<Artifact>)
      modifies table, client
      ensures Selected(old(table.rows), ids, now - retention, batchSize, candidates)
      ensures !applyEnabled ==>
                && report == Some(Report(|candidates|, 0, 0, true))
                && table.rows == old(table.rows) && client.View() == old(client.View())
      ensures applyEnabled ==>
                var pass := Pass(old(client.View()), old(table.rows), candidates, now, detail);
                && table.rows == pass.rows && client.View() == pass.world
                && report == if pass.died then None
                             else Some(Report(|candidates|, pass.deleted, pass.failed, false))
      ensures report.Some? && applyEnabled ==> report.value.inspected == report.value.deleted + report.value.failed
    {
      var selected := Select(ids, now);
      candidates := selected;
      if !applyEnabled {
        return Some(Report(|selected|, 0, 0, true)), candidates;
      }
      PassCounts(client.View(), table.rows, selected, now, detail);
      var died, deleted, failed := DeleteAll(selected, now, detail);
      report := if died then None else Some(Report(|selected|, deleted, failed, false));
    }

    method DeleteAll(candidates: seq<Artifact>, now: int, detail: string)
      returns (died: bool, deleted: nat, failed: nat)
      modifies table, client
      ensures var pass := Pass(old(client.View()), old(table.rows), candidates, now, detail);
              && table.rows == pass.rows && client.View() == pass.world && died == pass.died
              && (!died ==> deleted == pass.deleted && failed == pass.failed)
    {
      ghost var whole := Pass(client.View(), table.rows, candidates, now, detail);
      deleted, failed := 0, 0;
      assert candidates[0..] == candidates;
      for i := 0 to |candidates|
        invariant var rest := Pass(client.View(), table.rows, candidates[i..], now, detail);
                  && whole.rows == rest.rows && whole.world == rest.world && whole.died == rest.died
                  && (!whole.died ==> && whole.deleted == deleted + rest.deleted
                                      && whole.failed == failed + rest.failed)
      {
        assert candidates[i..][1..] == candidates[i + 1..];
        var a := candidates[i];
        var signal := client.DeleteDataset(a.dataset);
        if signal.Crashed? {
          return true, deleted, failed;
        }
        if signal.Ok? {
          deleted := deleted + 1;
          var _ := table.MarkArtifactDeleted(a.id, now);
        } else {
          failed := failed + 1;
          var _ := table.MarkArtifactFailed(a.id, detail);
        }
      }
      died := false;
    }
  }

  lemma {:induction false} PassCounts(w: World, rows: seq<Artifact>, candidates: seq<Artifact>, now: int, detail: string)
    ensures var pass := Pass(w, rows, candidates, now, detail);
            !pass.died ==> pass.deleted + pass.failed == |candidates|
    decreases candidates
  {
    if candidates != [] {
      var a := candidates[0];
      var (signal, w1) := Perform(w, DeleteDataset(a.dataset));
      PassCounts(w1, MarkDeleted(rows, a.id, now), candidates[1..], now, detail);
      PassCounts(w1, MarkFailed(rows, a.id, detail), candidates[1..], now, detail);
    }
  }

  // ---- what a pass may send and what it leaves ----

  // Candidates read from the table just before, one per row.
  predicate Drawn(rows: seq<Artifact>, candidates: seq<Artifact>) {
    UniqueIds(candidates) && forall a | a in candidates :: a in rows
  }

  predicate AllDeletable(candidates: seq<Artifact>) {
    forall a | a in candidates :: Deletable(a)
  }

  lemma {:induction false} ChosenDrawn(rows: seq<Artifact>, ids: seq<nat>)
    requires UniqueIds(rows)
    ensures Drawn(rows, Chosen(rows, ids)) && AllDeletable(Chosen(rows, ids))
    ensures forall a | a in rows && a.id in ids && Deletable(a) :: a in Chosen(rows, ids)
  {
    if rows != [] {
      ChosenDrawn(rows[1..], ids);
      var rest := Chosen(rows[1..], ids);
      assert forall a | a in rows[1..] :: a in rows && a.id != rows[0].id;
      forall k | 0 <= k < |rest| ensures rest[k].id != rows[0].id {
        assert rest[k] in rest;
      }
    }
  }

  // In a coherent table the periodic guard implies the explicit one.
  lemma ExpiredDeletable(a: Artifact, before: int)
    requires Coherent(a) && Expired(a, before)
    ensures Deletable(a)
  {
  }

  lemma UniqueRow(rows: seq<Artifact>, a: Artifact)
    requires UniqueIds(rows) && a in rows
    ensures FindId(rows, a.id).Some? && rows[FindId(rows, a.id).value] == a
  {
    var k :| 0 <= k < |rows| && rows[k] == a;
    var at := FindId(rows, a.id);
    assert at.Some?;
  }

  // How one pass may change a row: only if it is a candidate, and only to deleted or failed.
  predicate RowAfterPass(before: Artifact, after: Artifact, candidates: seq<Artifact>, now: int, detail: string) {
    || after == before
    || (before in candidates && (after == DeletedRow(before, now) || after == FailedRow(before, detail)))
  }

  lemma MarkOne(rows: seq<Artifact>, candidates: seq<Artifact>, now: int, detail: string)
    requires candidates != [] && UniqueIds(rows) && Drawn(rows, candidates)
    ensures var a := candidates[0];
            forall marked: seq<Artifact> | marked in [MarkDeleted(rows, a.id, now), MarkFailed(rows, a.id, detail)] ::
              && SameIdentity(rows, marked) && UniqueIds(marked) && Drawn(marked, candidates[1..])
              && (forall k | 0 <= k < |rows| :: RowAfterPass(rows[k], marked[k], [a], now, detail))
  {
    var a := candidates[0];
    UniqueRow(rows, a);
    var at := FindId(rows, a.id).value;
    forall marked: seq<Artifact> | marked in [MarkDeleted(rows, a.id, now), MarkFailed(rows, a.id, detail)]
      ensures SameIdentity(rows, marked) && UniqueIds(marked) && Drawn(marked, candidates[1..])
    {
      assert marked == rows[at := marked[at]] && marked[at].id == a.id;
      forall c | c in candidates[1..] ensures c in marked {
        var j :| 0 <= j < |candidates[1..]| && candidates[1..][j] == c;
        assert candidates[0].id != candidates[j + 1].id && candidates[j + 1] in candidates;
        var k :| 0 <= k < |rows| && rows[k] == c;
        assert marked[k] == c;
      }
    }
  }

  predicate DeletesOne(call: Call, candidates: seq<Artifact>) {
    exists a | a in candidates :: call == DeleteDataset(a.dataset)
  }

  // Every call of the pass deletes the clone of a candidate.
  predicate DeletesOnly(w: World, w': World, candidates: seq<Artifact>) {
    && w.log <= w'.log
    && forall k | |w.log| <= k < |w'.log| :: DeletesOne(w'.log[k].call, candidates)
  }

  lemma {:induction false} PassDeletesOnly(w: World, rows: seq<Artifact>, candidates: seq<Artifact>, now: int,
                                           detail: string)
    ensures DeletesOnly(w, Pass(w, rows, candidates, now, detail).world, candidates)
    decreases candidates
  {
    if candidates != [] {
      var a := candidates[0];
      var (signal, w1) := Perform(w, DeleteDataset(a.dataset));
      assert DeletesOnly(w, w1, [a]);
      if signal.Crashed? {
        assert [a] + candidates[1..] == candidates;
      } else {
        var marked := if signal.Ok? then MarkDeleted(rows, a.id, now) else MarkFailed(rows, a.id, detail);
        PassDeletesOnly(w1, marked, candidates[1..], now, detail);
        DeletesCompose(w, w1, Pass(w1, marked, candidates[1..], now, detail).world, candidates);
      }
    }
  }

  lemma {:induction false} PassRows(w: World, rows: seq<Artifact>, candidates: seq<Artifact>, now: int, detail: string)
    requires UniqueIds(rows) && Drawn(rows, candidates)
    ensures var after := Pass(w, rows, candidates, now, detail).rows;
            && SameIdentity(rows, after)
            && (forall k | 0 <= k < |rows| :: RowAfterPass(rows[k], after[k], candidates, now, detail))
    decreases candidates
  {
    if candidates != [] {
      var a := candidates[0];
      var (signal, w1) := Perform(w, DeleteDataset(a.dataset));
      MarkOne(rows, candidates, now, detail);
      if !signal.Crashed? {
        var marked := if signal.Ok? then MarkDeleted(rows, a.id, now) else MarkFailed(rows, a.id, detail);
        assert marked in [MarkDeleted(rows, a.id, now), MarkFailed(rows, a.id, detail)];
        PassRows(w1, marked, candidates[1..], now, detail);
        RowsCompose(rows, marked, Pass(w1, marked, candidates[1..], now, detail).rows, candidates, now, detail);
      }
    }
  }

  // A pass counts every candidate once, deletes only candidates' datasets and touches only their rows.
  lemma PassEffect(w: World, rows: seq<Artifact>, candidates: seq<Artifact>, now: int, detail: string)
    requires UniqueIds(rows) && Drawn(rows, candidates)
    ensures var r := Pass(w, rows, candidates, now, detail);
            && (!r.died ==> r.deleted + r.failed == |candidates|)
            && DeletesOnly(w, r.world, candidates)
            && SameIdentity(rows, r.rows)
            && (forall k | 0 <= k < |rows| :: RowAfterPass(rows[k], r.rows[k], candidates, now, detail))
  {
    PassCounts(w, rows, candidates, now, detail);
    PassDeletesOnly(w, rows, candidates, now, detail);
    PassRows(w, rows, candidates, now, detail);
  }

  lemma RowsCompose(rows: seq<Artifact>, marked: seq<Artifact>, final: seq<Artifact>, candidates: seq<Artifact>,
                    now: int, detail: string)
    requires candidates != [] && UniqueIds(candidates)
    requires SameIdentity(rows, marked) && SameIdentity(marked, final)
    requires forall k | 0 <= k < |rows| :: RowAfterPass(rows[k], marked[k], [candidates[0]], now, detail)
    requires forall k | 0 <= k < |rows| :: RowAfterPass(marked[k], final[k], candidates[1..], now, detail)
    ensures forall k | 0 <= k < |rows| :: RowAfterPass(rows[k], final[k], candidates, now, detail)
  {
    forall k | 0 <= k < |rows| ensures RowAfterPass(rows[k], final[k], candidates, now, detail) {
      if marked[k] != rows[k] {
        FirstNotLater(candidates, marked[k]);
      } else if final[k] != marked[k] {
        assert rows[k] in candidates[1..];
      }
    }
  }

  lemma FirstNotLater(candidates: seq<Artifact>, a: Artifact)
    requires candidates != [] && UniqueIds(candidates) && a.id == candidates[0].id
    ensures a !in candidates[1..]
  {
    forall j | 0 <= j < |candidates[1..]| ensures candidates[1..][j] != a {
      assert candidates[1..][j] == candidates[j + 1];
    }
  }

  lemma DeletesCompose(w: World, w1: World, w2: World, candidates: seq<Artifact>)
    requires candidates != []
    requires DeletesOnly(w, w1, [candidates[0]]) && DeletesOnly(w1, w2, candidates[1..])
    ensures DeletesOnly(w, w2, candidates)
  {
    forall k | |w.log| <= k < |w2.log|
      ensures DeletesOne(w2.log[k].call, candidates)
    {
      if k < |w1.log| {
        assert DeletesOne(w1.log[k].call, [candidates[0]]);
        assert candidates[0] in candidates;
      } else {
        assert DeletesOne(w2.log[k].call, candidates[1..]);
        var a :| a in candidates[1..] && w2.log[k].call == DeleteDataset(a.dataset);
        assert a in candidates;
      }
    }
  }

  // A pass that starts from a coherent table leaves one.
  lemma PassCoherent(w: World, rows: seq<Artifact>, candidates: seq<Artifact>, now: int, detail: string)
    requires UniqueIds(rows) && Drawn(rows, candidates) && AllDeletable(candidates) && AllCoherent(rows)
    ensures AllCoherent(Pass(w, rows, candidates, now, detail).rows)
  {
    PassEffect(w, rows, candidates, now, detail);
    var after := Pass(w, rows, candidates, now, detail).rows;
    forall k | 0 <= k < |after| ensures Coherent(after[k]) {
      assert Coherent(rows[k]) && RowAfterPass(rows[k], after[k], candidates, now, detail);
    }
  }

  // ---- runs of the registry in which passes are not interleaved with other commits ----

  datatype Act =
    | ActPersist(job: Job, results: seq<TargetResult>, master: string, now: int)
    | ActSetCurrent(station: nat, current: Option<nat>)
    | ActChosenPass(ids: seq<nat>, now: int, faults: seq<Fault>, detail: string)
    | ActExpiredPass(batch: seq<Artifact>, before: int, now: int, faults: seq<Fault>, detail: string)

  predicate IsBatch(rows: seq<Artifact>, batch: seq<Artifact>, before: int) {
    UniqueIds(batch) && forall a | a in batch :: a in rows && Expired(a, before)
  }

  ghost predicate Enabled(t: Table, act: Act) {
    match act
    case ActPersist(job, results, _, _) => AllNamed(job, results)
    case ActExpiredPass(batch, before, _, _, _) => IsBatch(t.rows, batch, before)
    case _ => true
  }

  datatype Registry = Registry(table: Table, world: World)

  function Step(s: Registry, act: Act): Registry {
    match act
    case ActPersist(job, results, master, now) =>
      s.(table := Commit1(s.table, PersistCommit(job, results, master, now)))
    case ActSetCurrent(station, current) => s.(table := Commit1(s.table, SetCurrentCommit(station, current)))
    case ActChosenPass(ids, now, faults, detail) =>
      var pass := Pass(s.world.(faults := faults), s.table.rows, Chosen(s.table.rows, ids), now, detail);
      Registry(s.table.(rows := pass.rows), pass.world)
    case ActExpiredPass(batch, _, now, faults, detail) =>
      var pass := Pass(s.world.(faults := faults), s.table.rows, batch, now, detail);
      Registry(s.table.(rows := pass.rows), pass.world)
  }

  ghost predicate RegistryOk(s: Registry) {
    TableOk(s.table) && AllCoherent(s.table.rows) && AllMinted(s.table.rows)
  }

  // No call deletes the source of the row it is made for, and that row is neither current nor deleted.
  ghost predicate SafeDelete(rows: seq<Artifact>, call: Call) {
    call.DeleteDataset? ==>
      exists a | a in rows :: Deletable(a) && a.dataset == call.dataset && a.dataset != a.source
  }

  lemma CandidateSafe(rows: seq<Artifact>, candidates: seq<Artifact>, call: Call)
    requires AllMinted(rows) && Drawn(rows, candidates) && AllDeletable(candidates) && DeletesOne(call, candidates)
    ensures SafeDelete(rows, call)
  {
    var a :| a in candidates && call == DeleteDataset(a.dataset);
    assert a in rows;
    var j :| 0 <= j < |rows| && rows[j] == a;
    MintedExtends(rows[j]);
  }

  lemma PassOk(s: Registry, candidates: seq<Artifact>, now: int, faults: seq<Fault>, detail: string)
    requires RegistryOk(s) && Drawn(s.table.rows, candidates) && AllDeletable(candidates)
    ensures var pass := Pass(s.world.(faults := faults), s.table.rows, candidates, now, detail);
            && RegistryOk(Registry(s.table.(rows := pass.rows), pass.world))
            && |pass.rows| == |s.table.rows|
            && (forall k | 0 <= k < |s.table.rows| && s.table.rows[k].status == Deleted ::
                  pass.rows[k] == s.table.rows[k])
            && s.world.log <= pass.world.log
            && forall k | |s.world.log| <= k < |pass.world.log| :: SafeDelete(s.table.rows, pass.world.log[k].call)
  {
    var w, rows := s.world.(faults := faults), s.table.rows;
    PassEffect(w, rows, candidates, now, detail);
    PassCoherent(w, rows, candidates, now, detail);
    var pass := Pass(w, rows, candidates, now, detail);
    IdentityOk(s.table, pass.rows);
    forall k | 0 <= k < |rows|
      ensures Minted(pass.rows[k]) && (pass.rows[k].isCurrent ==> rows[k].isCurrent)
      ensures rows[k].status == Deleted ==> pass.rows[k] == rows[k]
    {
      assert RowAfterPass(rows[k], pass.rows[k], candidates, now, detail) && Minted(rows[k]);
    }
    forall k | |s.world.log| <= k < |pass.world.log| ensures SafeDelete(rows, pass.world.log[k].call) {
      CandidateSafe(rows, candidates, pass.world.log[k].call);
    }
  }

  // With passes that other commits do not interrupt, in every reachable state the flag agrees with
  // the status, DELETED with its timestamp, and every recorded clone still extends its source; and
  // each delete a step sends goes to a row that is neither current nor deleted nor its own source.
  lemma StepOk(s: Registry, act: Act)
    requires RegistryOk(s) && Enabled(s.table, act)
    ensures RegistryOk(Step(s, act))
    ensures s.world.log <= Step(s, act).world.log
    ensures forall k | |s.world.log| <= k < |Step(s, act).world.log| ::
              SafeDelete(s.table.rows, Step(s, act).world.log[k].call)
    ensures act.ActChosenPass? || act.ActExpiredPass? ==>
              forall k | 0 <= k < |s.table.rows| && s.table.rows[k].status == Deleted ::
                k < |Step(s, act).table.rows| && Step(s, act).table.rows[k] == s.table.rows[k]
  {
    match act {
      case ActPersist(job, results, master, now) =>
        PersistOk(s.table, job, results, master, now);
        CommitKeepsNames(s.table, PersistCommit(job, results, master, now));
      case ActSetCurrent(station, current) =>
        SetCurrentOk(s.table, station, current);
        CommitKeepsNames(s.table, SetCurrentCommit(station, current));
      case ActChosenPass(ids, now, faults, detail) =>
        ChosenDrawn(s.table.rows, ids);
        PassOk(s, Chosen(s.table.rows, ids), now, faults, detail);
      case ActExpiredPass(batch, before, now, faults, detail) =>
        forall a | a in batch ensures Deletable(a) {
          var k :| 0 <= k < |s.table.rows| && s.table.rows[k] == a;
          assert Coherent(s.table.rows[k]);
          ExpiredDeletable(a, before);
        }
        PassOk(s, batch, now, faults, detail);
    }
  }

  function StepAll(s: Registry, acts: seq<Act>): Registry {
    if acts == [] then s else Step(StepAll(s, acts[..|acts| - 1]), acts[|acts| - 1])
  }

  ghost predicate EnabledAll(s: Registry, acts: seq<Act>) {
    acts == [] || (EnabledAll(s, acts[..|acts| - 1])
                   && Enabled(StepAll(s, acts[..|acts| - 1]).table, acts[|acts| - 1]))
  }

  lemma {:induction false} RegistryInvariant(s: Registry, acts: seq<Act>)
    requires RegistryOk(s) && EnabledAll(s, acts)
    ensures RegistryOk(StepAll(s, acts))
  {
    if acts != [] {
      RegistryInvariant(s, acts[..|acts| - 1]);
      StepOk(StepAll(s, acts[..|acts| - 1]), acts[|acts| - 1]);
    }
  }
}
