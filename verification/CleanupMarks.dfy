// What a cleanup pass records: which mark follows which answer of the appliance, and which clones are gone.
module CleanupMarks {
  import opened Text
  import opened Naming
  import opened Storage
  import opened Artifacts
  import opened Cleanup

  // What each delete of the pass met, up to the one in which the process died: None where the name is refused
  // before anything is sent, which uses up no fault.
  function Met(faults: seq<Fault>, candidates: seq<Artifact>): (met: seq<Option<Fault>>)
    ensures |met| <= |candidates|
    decreases candidates
  {
    if candidates == [] then []
    else if !ValidDataset(candidates[0].dataset) then [None] + Met(faults, candidates[1..])
    else
      var fault := if faults == [] then Fine else faults[0];
      if SignalOf(fault).Crashed? then [Some(fault)]
      else [Some(fault)] + Met(if faults == [] then [] else faults[1..], candidates[1..])
  }

  function Answer(met: Option<Fault>): Signal {
    if met == None then Raised else SignalOf(met.value)
  }

  predicate Reached(met: Option<Fault>) {
    met.Some? && !met.value.RaiseLost? && !met.value.CrashLost?
  }

  function Count(met: seq<Option<Fault>>, signal: Signal): nat {
    if met == [] then 0 else (if Answer(met[0]) == signal then 1 else 0) + Count(met[1..], signal)
  }

  // The row of a candidate after its delete was answered.
  function Marked(a: Artifact, answer: Signal, now: int, detail: string): Artifact {
    match answer
    case Ok => a.(status := Deleted, isCurrent := false, deletedAt := Some(now), lastError := None)
    case Raised => a.(status := CleanupFailed, lastError := Some(ErrorText(detail)))
    case Crashed => a
  }

  // Every candidate whose delete was tried carries the mark of its answer, no other row changed.
  predicate MarksMatch(rows: seq<Artifact>, after: seq<Artifact>, candidates: seq<Artifact>, met: seq<Option<Fault>>,
                       now: int, detail: string)
  {
    && |met| <= |candidates| && |after| == |rows|
    && (forall k, j | 0 <= k < |rows| && 0 <= j < |met| && rows[k] == candidates[j] ::
          after[k] == Marked(rows[k], Answer(met[j]), now, detail))
    && forall k | 0 <= k < |rows| && rows[k] !in candidates[..|met|] :: after[k] == rows[k]
  }

  // The datasets that are left: all but those whose delete reached the appliance.
  ghost predicate DatasetsLeft(before: Storage, after: Storage, candidates: seq<Artifact>, met: seq<Option<Fault>>) {
    && |met| <= |candidates| && after == before.(datasets := after.datasets)
    && forall name :: HasDataset(after.datasets, name)
         <==> HasDataset(before.datasets, name)
              && !exists j :: 0 <= j < |met| && Reached(met[j]) && candidates[j].dataset == name
  }

  lemma {:induction false} HasWithout(datasets: seq<Dataset>, name: string, other: string)
    ensures HasDataset(WithoutDataset(datasets, name), other) <==> HasDataset(datasets, other) && other != name
  {
    if datasets != [] {
      HasWithout(datasets[1..], name, other);
      var kept := WithoutDataset(datasets[1..], name);
      assert datasets == [datasets[0]] + datasets[1..];
      assert datasets[0] in [datasets[0]] + kept;
    }
  }

  lemma OneMark(rows: seq<Artifact>, candidates: seq<Artifact>, answer: Signal, now: int, detail: string)
    requires candidates != [] && UniqueIds(rows) && Drawn(rows, candidates) && !answer.Crashed?
    ensures var a := candidates[0];
            var marked := if answer.Ok? then MarkDeleted(rows, a.id, now) else MarkFailed(rows, a.id, detail);
            && |marked| == |rows| && UniqueIds(marked) && Drawn(marked, candidates[1..])
            && forall k | 0 <= k < |rows| ::
                 marked[k] == if rows[k] == a then Marked(a, answer, now, detail) else rows[k]
  {
    var a := candidates[0];
    var marked := if answer.Ok? then MarkDeleted(rows, a.id, now) else MarkFailed(rows, a.id, detail);
    MarkOne(rows, candidates, now, detail);
    assert marked in [MarkDeleted(rows, a.id, now), MarkFailed(rows, a.id, detail)];
    UniqueRow(rows, a);
  }

  lemma MarksCompose(rows: seq<Artifact>, marked: seq<Artifact>, after: seq<Artifact>, candidates: seq<Artifact>,
                     met: seq<Option<Fault>>, now: int, detail: string)
    requires candidates != [] && met != [] && UniqueIds(candidates) && |marked| == |rows|
    requires forall k | 0 <= k < |rows| :: marked[k].id == rows[k].id
    requires forall k | 0 <= k < |rows| ::
               marked[k] == if rows[k] == candidates[0] then Marked(rows[k], Answer(met[0]), now, detail) else rows[k]
    requires MarksMatch(marked, after, candidates[1..], met[1..], now, detail)
    ensures MarksMatch(rows, after, candidates, met, now, detail)
  {
    var rest := candidates[1..];
    assert candidates[..|met|] == [candidates[0]] + rest[..|met| - 1];
    forall k | 0 <= k < |rows| && rows[k].id == candidates[0].id ensures after[k] == marked[k] {
      forall j | 0 <= j < |rest| ensures marked[k] != rest[j] {
        assert rest[j] == candidates[j + 1];
      }
    }
    forall k, j | 0 <= k < |rows| && 0 <= j < |met| && rows[k] == candidates[j]
      ensures after[k] == Marked(rows[k], Answer(met[j]), now, detail)
    {
      if j > 0 {
        assert rest[j - 1] == candidates[j] && met[1..][j - 1] == met[j];
        assert candidates[0].id != candidates[j].id;
        assert marked[k] == rest[j - 1];
      }
    }
    forall k | 0 <= k < |rows| && rows[k] !in candidates[..|met|] ensures after[k] == rows[k] {
      assert marked[k] !in rest[..|met| - 1];
    }
  }

  lemma DatasetsCompose(before: Storage, middle: Storage, after: Storage, candidates: seq<Artifact>,
                        met: seq<Option<Fault>>)
    requires candidates != [] && met != []
    requires middle == if Reached(met[0]) then before.(datasets := WithoutDataset(before.datasets, candidates[0].dataset))
                       else before
    requires DatasetsLeft(middle, after, candidates[1..], met[1..])
    ensures DatasetsLeft(before, after, candidates, met)
  {
    forall name ensures HasDataset(after.datasets, name)
        <==> HasDataset(before.datasets, name)
             && !exists j :: 0 <= j < |met| && Reached(met[j]) && candidates[j].dataset == name
    {
      HasWithout(before.datasets, candidates[0].dataset, name);
      if exists j :: 0 <= j < |met| && Reached(met[j]) && candidates[j].dataset == name {
        var j :| 0 <= j < |met| && Reached(met[j]) && candidates[j].dataset == name;
        assert j > 0 ==> Reached(met[1..][j - 1]) && candidates[1..][j - 1].dataset == name;
      }
      if exists j :: 0 <= j < |met[1..]| && Reached(met[1..][j]) && candidates[1..][j].dataset == name {
        var j :| 0 <= j < |met[1..]| && Reached(met[1..][j]) && candidates[1..][j].dataset == name;
        assert Reached(met[j + 1]) && candidates[j + 1].dataset == name;
      }
    }
  }

  lemma DeleteMeets(w: World, candidates: seq<Artifact>)
    requires candidates != []
    ensures var (signal, w1) := Perform(w, DeleteDataset(candidates[0].dataset));
            var met := Met(w.faults, candidates);
            && met != [] && signal == Answer(met[0])
            && w1.storage == (if Reached(met[0])
                              then w.storage.(datasets := WithoutDataset(w.storage.datasets, candidates[0].dataset))
                              else w.storage)
            && met[1..] == if signal.Crashed? then [] else Met(w1.faults, candidates[1..])
  {
  }

  // The mark of a row says what its own delete was answered: DELETED and stamped exactly when it returned,
  // CLEANUP_FAILED with the error exactly when it raised. The counters are the numbers of such rows, and the
  // datasets that are gone are those whose delete reached the appliance.
  lemma {:induction false} PassMarks(w: World, rows: seq<Artifact>, candidates: seq<Artifact>, now: int, detail: string)
    requires UniqueIds(rows) && Drawn(rows, candidates)
    ensures var pass, met := Pass(w, rows, candidates, now, detail), Met(w.faults, candidates);
            && MarksMatch(rows, pass.rows, candidates, met, now, detail)
            && DatasetsLeft(w.storage, pass.world.storage, candidates, met)
            && pass.deleted == Count(met, Ok) && pass.failed == Count(met, Raised)
            && pass.died == (Count(met, Crashed) > 0)
            && (!pass.died ==> |met| == |candidates|)
    decreases candidates
  {
    if candidates != [] {
      var a, met := candidates[0], Met(w.faults, candidates);
      var (signal, w1) := Perform(w, DeleteDataset(a.dataset));
      DeleteMeets(w, candidates);
      if signal.Crashed? {
        OnlyCrash(w, w1, rows, candidates, met, now, detail);
      } else {
        var marked := if signal.Ok? then MarkDeleted(rows, a.id, now) else MarkFailed(rows, a.id, detail);
        OneMark(rows, candidates, signal, now, detail);
        PassMarks(w1, marked, candidates[1..], now, detail);
        var rest := Pass(w1, marked, candidates[1..], now, detail);
        MarksCompose(rows, marked, rest.rows, candidates, met, now, detail);
        DatasetsCompose(w.storage, w1.storage, rest.world.storage, candidates, met);
      }
    }
  }

  lemma OnlyCrash(w: World, w1: World, rows: seq<Artifact>, candidates: seq<Artifact>, met: seq<Option<Fault>>, now: int,
                  detail: string)
    requires candidates != [] && |met| == 1 && Answer(met[0]).Crashed?
    requires w1.storage == (if Reached(met[0])
                            then w.storage.(datasets := WithoutDataset(w.storage.datasets, candidates[0].dataset))
                            else w.storage)
    ensures MarksMatch(rows, rows, candidates, met, now, detail)
    ensures DatasetsLeft(w.storage, w1.storage, candidates, met)
    ensures Count(met, Ok) == 0 && Count(met, Raised) == 0 && Count(met, Crashed) == 1
  {
    assert met[1..] == [];
    forall name { HasWithout(w.storage.datasets, candidates[0].dataset, name); }
  }

  // So a row that a pass marks DELETED has lost its dataset.
  lemma DeletedIsGone(w: World, rows: seq<Artifact>, candidates: seq<Artifact>, now: int, detail: string, k: nat)
    requires UniqueIds(rows) && Drawn(rows, candidates) && k < |rows| && rows[k].status != Deleted
    ensures var pass := Pass(w, rows, candidates, now, detail);
            k < |pass.rows| && (pass.rows[k].status == Deleted ==>
                                  && pass.rows[k] == DeletedRow(rows[k], now)
                                  && !HasDataset(pass.world.storage.datasets, rows[k].dataset))
  {
    PassMarks(w, rows, candidates, now, detail);
    var pass, met := Pass(w, rows, candidates, now, detail), Met(w.faults, candidates);
    if pass.rows[k].status == Deleted {
      var j :| 0 <= j < |met| && candidates[..|met|][j] == rows[k];
      assert rows[k] == candidates[j];
      assert Reached(met[j]) && candidates[j].dataset == rows[k].dataset;
    }
  }
}
