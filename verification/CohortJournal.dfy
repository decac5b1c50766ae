/**
 The append-only cohort journal: its event kinds, the transition rules every append and every
 read check, and the replay of a retained journal into the state of a run.
 */
module CohortJournal {
  import opened Wrappers
  import opened Identifiers

  datatype PackageState = Succeeded | Failed | BlockedDependency | BlockedPolicy

  datatype PackageResult = PackageResult(state: PackageState, output: string, evidence: seq<string>, message: string)

  datatype Convergence = Convergence(accepted: bool, output: string, message: string)

  datatype Verification = Verification(passed: bool, checks: seq<string>, message: string)

  datatype RunStatus = RunSucceeded | RunFailed | RunBlocked

  datatype Source = FromExecutor | FromPolicy | FromDependency

  /** Terminal evidence binds the digest of one converged candidate; digests are injective. */
  datatype Evidence = Evidence(candidate: string, producer: string, reviewer: string, references: seq<string>)

  datatype Directive = Directive(packages: seq<Id>, instruction: string)

  datatype Event =
    | KickoffEvent(record: string)
    | DispatchEvent(packages: seq<Id>, activeCount: int)
    | ResultEvent(package: Id, result: PackageResult, source: Source)
    | ConvergenceEvent(convergence: Convergence)
    | VerificationEvent(verification: Verification)
    | RepairAttemptEvent(directive: Directive)
    | RepairResultEvent(repaired: seq<(Id, PackageResult)>)
    | EvidenceEvent(evidence: Evidence)
    | CompletedEvent(status: RunStatus)

  type Journal = seq<Event>

  /** `_validate_transition` */
  predicate Accepts(records: Journal, e: Event) {
    if records == [] then e.KickoffEvent?
    else
      && !e.KickoffEvent?
      && !records[|records| - 1].CompletedEvent?
      && (e.CompletedEvent? ==> !exists i | 0 <= i < |records| :: records[i].CompletedEvent?)
      && (e.RepairAttemptEvent? ==> !exists i | 0 <= i < |records| :: records[i].RepairAttemptEvent?)
      && (e.RepairResultEvent? ==>
            && (exists i | 0 <= i < |records| :: records[i].RepairAttemptEvent?)
            && !exists i | 0 <= i < |records| :: records[i].RepairResultEvent?)
      && (e.ResultEvent? ==> !exists i | 0 <= i < |records| :: records[i].ResultEvent? && records[i].package == e.package)
  }

  /** What a read accepts. */
  predicate Accepted(j: Journal) {
    j != [] ==> Accepted(j[..|j| - 1]) && Accepts(j[..|j| - 1], j[|j| - 1])
  }

  datatype Replayed = Replayed(
    results: map<Id, PackageResult>, batches: seq<seq<Id>>, dispatched: set<Id>, peak: int,
    convergence: Option<Convergence>, verification: Option<Verification>, completion: Option<RunStatus>)

  function EmptyReplay(): Replayed {
    Replayed(map[], [], {}, 0, None, None, None)
  }

  function Repair(results: map<Id, PackageResult>, repaired: seq<(Id, PackageResult)>): map<Id, PackageResult> {
    if repaired == [] then results
    else Repair(results, repaired[..|repaired| - 1])[repaired[|repaired| - 1].0 := repaired[|repaired| - 1].1]
  }

  /** One turn of `_replay`'s loop; `None` is a replay error. */
  function ReplayOne(ids: set<Id>, r: Replayed, e: Event): Option<Replayed> {
    match e
    case KickoffEvent(_) => Some(r)
    case DispatchEvent(packages, activeCount) =>
      if packages == [] || !(Elements(packages) <= ids) || activeCount < 1 then None
      else Some(r.(batches := r.batches + [packages], dispatched := r.dispatched + Elements(packages),
                   peak := if activeCount > r.peak then activeCount else r.peak))
    case ResultEvent(p, result, source) =>
      if || p !in ids || p in r.results
         || (source.FromExecutor? && p !in r.dispatched)
         || (source.FromPolicy? && !result.state.BlockedPolicy?)
         || (source.FromDependency? && !result.state.BlockedDependency?)
      then None else Some(r.(results := r.results[p := result]))
    case ConvergenceEvent(c) =>
      if r.results.Keys != ids then None else Some(r.(convergence := Some(c)))
    case VerificationEvent(v) =>
      if r.convergence.None? then None else Some(r.(verification := Some(v)))
    case CompletedEvent(status) =>
      if r.verification.None? then None else Some(r.(completion := Some(status)))
    case RepairAttemptEvent(_) => Some(r.(convergence := None, verification := None))
    case RepairResultEvent(repaired) =>
      if repaired == [] || exists i | 0 <= i < |repaired| :: repaired[i].0 !in ids then None
      else Some(r.(results := Repair(r.results, repaired), convergence := None, verification := None))
    case EvidenceEvent(_) => Some(r)
  }

  /** `_replay` without its last check. The first event is the kickoff. */
  function Replay(ids: set<Id>, j: Journal): Option<Replayed>
    requires j != []
  {
    if |j| == 1 then Some(EmptyReplay())
    else
      var before := Replay(ids, j[..|j| - 1]);
      if before.None? then None else ReplayOne(ids, before.value, j[|j| - 1])
  }

  /** `_status` */
  function Status(results: map<Id, PackageResult>, c: Convergence, v: Verification): RunStatus {
    if (exists p | p in results :: results[p].state.Failed?) || !c.accepted || !v.passed then RunFailed
    else if exists p | p in results :: results[p].state.BlockedDependency? || results[p].state.BlockedPolicy? then RunBlocked
    else RunSucceeded
  }

  // --- Prefixes ---

  lemma {:induction false} PrefixAccepted(j: Journal, n: nat)
    requires Accepted(j) && n <= |j|
    ensures Accepted(j[..n])
    decreases |j|
  {
    if n < |j| {
      PrefixAccepted(j[..|j| - 1], n);
      assert j[..|j| - 1][..n] == j[..n];
    } else {
      assert j[..n] == j;
    }
  }

  lemma {:induction false} PrefixReplays(ids: set<Id>, j: Journal, n: nat)
    requires 1 <= n <= |j| && Replay(ids, j).Some?
    ensures Replay(ids, j[..n]).Some?
    decreases |j|
  {
    if n < |j| {
      PrefixReplays(ids, j[..|j| - 1], n);
      assert j[..|j| - 1][..n] == j[..n];
    } else {
      assert j[..n] == j;
    }
  }

  lemma ReplaySnoc(ids: set<Id>, j: Journal, e: Event)
    requires j != [] && Replay(ids, j).Some?
    ensures Replay(ids, j + [e]) == ReplayOne(ids, Replay(ids, j).value, e)
  {
    assert (j + [e])[..|j|] == j;
  }

  lemma AcceptedSnoc(j: Journal, e: Event)
    requires Accepted(j) && Accepts(j, e)
    ensures Accepted(j + [e])
  {
    assert (j + [e])[..|j|] == j;
  }

  // --- What replay remembers of the journal ---

  lemma {:induction false} ReplayKeepsResults(ids: set<Id>, j: Journal, i: nat)
    requires j != [] && Replay(ids, j).Some? && 0 < i < |j| && j[i].ResultEvent?
    ensures j[i].package in Replay(ids, j).value.results
    decreases |j|
  {
    var before := j[..|j| - 1];
    if i < |j| - 1 {
      ReplayKeepsResults(ids, before, i);
      var r := Replay(ids, before).value;
      if j[|j| - 1].RepairResultEvent? { RepairKeepsKeys(r.results, j[|j| - 1].repaired); }
    }
  }

  lemma {:induction false} RepairKeepsKeys(results: map<Id, PackageResult>, repaired: seq<(Id, PackageResult)>)
    ensures results.Keys <= Repair(results, repaired).Keys
  {
    if repaired != [] { RepairKeepsKeys(results, repaired[..|repaired| - 1]); }
  }

  lemma {:induction false} ReplayKeepsCompletion(ids: set<Id>, j: Journal, i: nat)
    requires j != [] && Replay(ids, j).Some? && 0 < i < |j| && j[i].CompletedEvent?
    ensures Replay(ids, j).value.completion.Some?
    decreases |j|
  {
    if i < |j| - 1 { ReplayKeepsCompletion(ids, j[..|j| - 1], i); }
  }

  lemma {:induction false} FirstIsKickoff(j: Journal, i: nat)
    requires Accepted(j) && i < |j|
    ensures j[i].KickoffEvent? <==> i == 0
    decreases |j|
  {
    if i < |j| - 1 { FirstIsKickoff(j[..|j| - 1], i); }
  }

  /** A journal whose replay has no completion accepts every run event whose package is new to the replay. */
  lemma RunEventAccepted(ids: set<Id>, j: Journal, e: Event)
    requires Accepted(j) && j != [] && Replay(ids, j).Some? && Replay(ids, j).value.completion.None?
    requires !e.KickoffEvent? && !e.RepairAttemptEvent? && !e.RepairResultEvent?
    requires e.ResultEvent? ==> e.package !in Replay(ids, j).value.results
    ensures Accepts(j, e)
  {
    FirstIsKickoff(j, 0);
    forall i | 0 <= i < |j| ensures !j[i].CompletedEvent? {
      if i > 0 && j[i].CompletedEvent? { ReplayKeepsCompletion(ids, j, i); }
    }
    if e.ResultEvent? {
      forall i | 0 <= i < |j| && j[i].ResultEvent? ensures j[i].package != e.package {
        ReplayKeepsResults(ids, j, i);
      }
    }
  }
}
