// Publish jobs, their status table and the per-station results of a run.
module PublishJobs {
  import opened Text
  import opened Naming

  datatype JobStatus =
    | Draft | Preflight | AwaitingConfirmation | Publishing | Switching | Verifying
    | Completed | PartialFailure | Failed

  function Allowed(status: JobStatus): set<JobStatus> {
    match status
    case Draft => {Preflight}
    case Preflight => {AwaitingConfirmation}
    case AwaitingConfirmation => {Publishing}
    case Publishing => {Switching, Completed, Failed}
    case Switching => {Verifying, PartialFailure, Failed}
    case Verifying => {Completed, PartialFailure, Failed}
    case Completed => {}
    case PartialFailure => {}
    case Failed => {}
  }

  predicate Terminal(status: JobStatus) {
    status in {Completed, PartialFailure, Failed}
  }

  // What the operator asked for.
  datatype Request = Request(title: string, source: string, description: Option<string>, dryRun: bool,
                             allowHotSwitch: bool, operator: Option<nat>)

  datatype Job = Job(id: HexId, key: string, correlation: nat, request: Request, status: JobStatus,
                     reason: Option<string>, confirmation: Option<bool>)
  {
    // None stands for the ValueError of an illegal transition.
    function Transition(target: JobStatus): Option<Job> {
      if target in Allowed(status) then Some(this.(status := target)) else None
    }
  }

  datatype TargetStatus = Simulated | Verified | Error | RecoveryRequired

  datatype TargetResult = TargetResult(station: nat, status: TargetStatus, oldMapping: Option<string>,
                                       newMapping: Option<string>, errorCode: Option<string>,
                                       storageCreated: bool)

  // ---- the status table as an order ----

  predicate Follows(path: seq<JobStatus>, i: nat)
    requires i + 1 < |path|
  {
    path[i + 1] in Allowed(path[i])
  }

  predicate Chain(path: seq<JobStatus>) {
    path != [] && forall i: nat | i + 1 < |path| :: Follows(path, i)
  }

  // The reflexive transitive closure of the table.
  ghost predicate CanReach(a: JobStatus, b: JobStatus) {
    exists path :: Chain(path) && path[0] == a && path[|path| - 1] == b
  }

  function Rank(status: JobStatus): nat {
    match status
    case Draft => 0
    case Preflight => 1
    case AwaitingConfirmation => 2
    case Publishing => 3
    case Switching => 4
    case Verifying => 5
    case Completed => 6
    case PartialFailure => 6
    case Failed => 6
  }

  lemma ReachBy(path: seq<JobStatus>)
    requires Chain(path)
    ensures CanReach(path[0], path[|path| - 1])
  {
  }

  lemma ReachTransitive(a: JobStatus, b: JobStatus, c: JobStatus)
    requires CanReach(a, b) && CanReach(b, c)
    ensures CanReach(a, c)
  {
    var p :| Chain(p) && p[0] == a && p[|p| - 1] == b;
    var q :| Chain(q) && q[0] == b && q[|q| - 1] == c;
    var joined := p + q[1..];
    forall i: nat | i + 1 < |joined| ensures Follows(joined, i) {
      if i + 1 < |p| { assert Follows(p, i); } else { assert Follows(q, i + 1 - |p|); }
    }
    assert joined[0] == a && joined[|joined| - 1] == c;
  }

  lemma {:induction false} RankAlong(path: seq<JobStatus>)
    requires Chain(path)
    ensures Rank(path[0]) + |path| - 1 <= Rank(path[|path| - 1])
  {
    if |path| > 1 {
      var last := |path| - 1;
      forall i: nat | i + 1 < last ensures Follows(path[..last], i) { assert Follows(path, i); }
      RankAlong(path[..last]);
      assert Follows(path, last - 1);
    }
  }

  // The table has no cycle, so a closed move is no move and terminal statuses are final.
  lemma ReachAntisymmetric(a: JobStatus, b: JobStatus)
    requires CanReach(a, b)
    ensures CanReach(b, a) ==> a == b
    ensures Terminal(a) ==> b == a
  {
    var p :| Chain(p) && p[0] == a && p[|p| - 1] == b;
    RankAlong(p);
    if CanReach(b, a) {
      var q :| Chain(q) && q[0] == b && q[|q| - 1] == a;
      RankAlong(q);
    }
  }
}
