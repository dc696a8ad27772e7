// What retention does to clones that are in use: exactly when a pass spares them.
module CleanupLive {
  import opened Text
  import opened Naming
  import opened Storage
  import opened Artifacts
  import opened Cleanup
  import opened Reconcile
  import opened CleanupQueue

  // The calls made between two views ask for the deletion of this dataset.
  ghost predicate Sends(w: World, w': World, dataset: string) {
    exists k :: |w.log| <= k < |w'.log| && w'.log[k].call == DeleteDataset(dataset)
  }

  // An extent's device is this dataset's zvol.
  predicate BacksExtent(extents: map<int, Option<string>>, dataset: string) {
    exists e | e in extents :: extents[e].Some? && CanonicalMapping(extents[e].value) == CanonicalMapping(DeviceOf(dataset))
  }

  lemma PassSendsOnly(w: World, rows: seq<Artifact>, candidates: seq<Artifact>, now: int, detail: string, dataset: string)
    requires Sends(w, Pass(w, rows, candidates, now, detail).world, dataset)
    ensures exists a | a in candidates :: a.dataset == dataset && ValidDataset(dataset)
  {
    PassDeletesOnly(w, rows, candidates, now, detail);
    PassSendsValid(w, rows, candidates, now, detail);
    var w' := Pass(w, rows, candidates, now, detail).world;
    var k :| |w.log| <= k < |w'.log| && w'.log[k].call == DeleteDataset(dataset);
    assert DeletesOne(w'.log[k].call, candidates);
  }

  lemma {:induction false} PassSendsValid(w: World, rows: seq<Artifact>, candidates: seq<Artifact>, now: int, detail: string)
    ensures var w' := Pass(w, rows, candidates, now, detail).world;
            w.log <= w'.log && forall k | |w.log| <= k < |w'.log| :: Accepts(w'.log[k].call)
    decreases candidates
  {
    if candidates != [] {
      var a := candidates[0];
      var (signal, w1) := Perform(w, DeleteDataset(a.dataset));
      if !signal.Crashed? {
        PassSendsValid(w1, if signal.Ok? then MarkDeleted(rows, a.id, now) else MarkFailed(rows, a.id, detail),
                       candidates[1..], now, detail);
      }
    }
  }

  // An undisturbed pass asks for every candidate's deletion.
  lemma {:induction false} QuietPassSends(w: World, rows: seq<Artifact>, candidates: seq<Artifact>, now: int,
                                          detail: string, a: Artifact)
    requires w.faults == [] && a in candidates && ValidDataset(a.dataset)
    ensures Sends(w, Pass(w, rows, candidates, now, detail).world, a.dataset)
    decreases candidates
  {
    var c := candidates[0];
    var (signal, w1) := Perform(w, DeleteDataset(c.dataset));
    var marked := if signal.Ok? then MarkDeleted(rows, c.id, now) else MarkFailed(rows, c.id, detail);
    var w' := Pass(w1, marked, candidates[1..], now, detail).world;
    PassSendsValid(w1, marked, candidates[1..], now, detail);
    if a == c {
      assert w'.log[|w.log|].call == DeleteDataset(a.dataset);
    } else {
      QuietPassSends(w1, marked, candidates[1..], now, detail, a);
      var k :| |w1.log| <= k < |w'.log| && w'.log[k].call == DeleteDataset(a.dataset);
      assert w'.log[k].call == DeleteDataset(a.dataset) && |w.log| <= k;
    }
  }

  // ---- clones that another row still counts on ----

  ghost predicate SparesFlagged(w: World, rows: seq<Artifact>, candidates: seq<Artifact>, now: int, detail: string) {
    forall c | c in rows && c.isCurrent :: !Sends(w, Pass(w, rows, candidates, now, detail).world, c.dataset)
  }

  predicate SharesNothing(rows: seq<Artifact>, candidates: seq<Artifact>) {
    forall a, c | a in candidates && c in rows && c.isCurrent && ValidDataset(a.dataset) :: a.dataset != c.dataset
  }

  // A pass deletes no dataset that a current row names, whatever the faults, exactly when no selected row
  // shares its dataset with one: the selection looks at single rows only.
  lemma FlaggedSparedExactly(rows: seq<Artifact>, candidates: seq<Artifact>, now: int, detail: string, storage: Storage)
    ensures (forall w: World :: SparesFlagged(w, rows, candidates, now, detail)) <==> SharesNothing(rows, candidates)
  {
    if SharesNothing(rows, candidates) {
      forall w: World ensures SparesFlagged(w, rows, candidates, now, detail) {
        forall c | c in rows && c.isCurrent ensures !Sends(w, Pass(w, rows, candidates, now, detail).world, c.dataset) {
          if Sends(w, Pass(w, rows, candidates, now, detail).world, c.dataset) {
            PassSendsOnly(w, rows, candidates, now, detail, c.dataset);
          }
        }
      }
    } else {
      var a, c :| a in candidates && c in rows && c.isCurrent && ValidDataset(a.dataset) && a.dataset == c.dataset;
      var w := World(storage, [], []);
      QuietPassSends(w, rows, candidates, now, detail, a);
      assert !SparesFlagged(w, rows, candidates, now, detail);
    }
  }

  // ---- clones that an extent still uses ----

  ghost predicate SparesLive(w: World, rows: seq<Artifact>, candidates: seq<Artifact>, now: int, detail: string) {
    forall dataset :: Sends(w, Pass(w, rows, candidates, now, detail).world, dataset)
                      ==> !BacksExtent(w.storage.extents, dataset)
  }

  predicate NoneBacksExtent(candidates: seq<Artifact>, extents: map<int, Option<string>>) {
    forall a | a in candidates && ValidDataset(a.dataset) :: !BacksExtent(extents, a.dataset)
  }

  // A pass deletes nothing an extent uses, whatever the faults, exactly when it selects nothing in use: it
  // never looks at the extents itself.
  lemma LiveSparedExactly(rows: seq<Artifact>, candidates: seq<Artifact>, now: int, detail: string, storage: Storage)
    ensures (forall faults: seq<Fault> :: SparesLive(World(storage, faults, []), rows, candidates, now, detail))
            <==> NoneBacksExtent(candidates, storage.extents)
  {
    if NoneBacksExtent(candidates, storage.extents) {
      forall faults: seq<Fault> ensures SparesLive(World(storage, faults, []), rows, candidates, now, detail) {
        var w := World(storage, faults, []);
        forall dataset | Sends(w, Pass(w, rows, candidates, now, detail).world, dataset)
          ensures !BacksExtent(storage.extents, dataset)
        {
          PassSendsOnly(w, rows, candidates, now, detail, dataset);
        }
      }
    } else {
      var a :| a in candidates && ValidDataset(a.dataset) && BacksExtent(storage.extents, a.dataset);
      QuietPassSends(World(storage, [], []), rows, candidates, now, detail, a);
      assert !SparesLive(World(storage, [], []), rows, candidates, now, detail);
    }
  }

  // After the update with the live mapping, a row may be selected exactly when the cleanup gate would let it
  // go, or when it is stamped as deleted and was marked failed later.
  lemma SelectableAfter(rows: seq<Artifact>, r: Artifact, live: map<nat, string>)
    requires UniqueIds(rows) && r in rows && Consistent(r)
    ensures Deletable(StoredRow(r, rows, live)) <==> Releasable(rows, r, live)
    ensures Selectable(StoredRow(r, rows, live)) <==> Releasable(rows, r, live) || StampedFailed(r)
    ensures StoredRow(r, rows, live).dataset == r.dataset
  {
    if r.station in live {
      SoleIsCurrent(rows, r, live[r.station]);
    }
  }

  predicate StampedFailed(r: Artifact) { r.deletedAt.Some? && r.status == CleanupFailed }

  // So right after a reconciliation the passes can delete nothing in use exactly when every clone in use is
  // that of the only row backing its station's live extent, or is flagged where the station is unresolved; for
  // the periodic pass it must not be that of a stamped row marked failed either.
  lemma ReconciledSparesExactly(rows: seq<Artifact>, live: map<nat, string>, extents: map<int, Option<string>>)
    requires UniqueIds(rows) && AllConsistent(rows)
    ensures (forall a | a in Stored(rows, rows, live) && Deletable(a) :: !BacksExtent(extents, a.dataset))
            <==> forall r | r in rows && Releasable(rows, r, live) :: !BacksExtent(extents, r.dataset)
    ensures (forall a | a in Stored(rows, rows, live) && Selectable(a) :: !BacksExtent(extents, a.dataset))
            <==> forall r | r in rows && (Releasable(rows, r, live) || StampedFailed(r)) :: !BacksExtent(extents, r.dataset)
  {
    var stored := Stored(rows, rows, live);
    forall k | 0 <= k < |rows|
      ensures stored[k].dataset == rows[k].dataset
      ensures Deletable(stored[k]) <==> Releasable(rows, rows[k], live)
      ensures Selectable(stored[k]) <==> Releasable(rows, rows[k], live) || StampedFailed(rows[k])
    {
      assert Consistent(rows[k]) && rows[k] in rows;
      SelectableAfter(rows, rows[k], live);
    }
    Mirrored(rows, stored, a => Deletable(a), r => Releasable(rows, r, live), extents);
    Mirrored(rows, stored, a => Selectable(a), r => Releasable(rows, r, live) || StampedFailed(r), extents);
  }

  // The same datasets are selected on both sides, row by row.
  lemma Mirrored(rows: seq<Artifact>, stored: seq<Artifact>, p: Artifact -> bool, q: Artifact -> bool,
                 extents: map<int, Option<string>>)
    requires |stored| == |rows|
    requires forall k | 0 <= k < |rows| :: stored[k].dataset == rows[k].dataset && (p(stored[k]) <==> q(rows[k]))
    ensures (forall a | a in stored && p(a) :: !BacksExtent(extents, a.dataset))
            <==> forall r | r in rows && q(r) :: !BacksExtent(extents, r.dataset)
  {
    if forall r | r in rows && q(r) :: !BacksExtent(extents, r.dataset) {
      forall a | a in stored && p(a) ensures !BacksExtent(extents, a.dataset) {
        var k :| 0 <= k < |stored| && stored[k] == a;
        assert rows[k] in rows;
      }
    }
    if forall a | a in stored && p(a) :: !BacksExtent(extents, a.dataset) {
      forall r | r in rows && q(r) ensures !BacksExtent(extents, r.dataset) {
        var k :| 0 <= k < |rows| && rows[k] == r;
        assert stored[k] in stored;
      }
    }
  }

  // Then a pass over any selection of the updated table spares what is in use.
  lemma ReconciledPassSparesLive(rows: seq<Artifact>, live: map<nat, string>, extents: map<int, Option<string>>,
                                 candidates: seq<Artifact>)
    requires UniqueIds(rows) && AllConsistent(rows)
    requires forall r | r in rows && (Releasable(rows, r, live) || StampedFailed(r)) :: !BacksExtent(extents, r.dataset)
    requires forall a | a in candidates :: a in Stored(rows, rows, live) && Selectable(a)
    ensures NoneBacksExtent(candidates, extents)
  {
    ReconciledSparesExactly(rows, live, extents);
  }
}
