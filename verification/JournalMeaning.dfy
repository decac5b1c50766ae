/** The journal's rules and its replay, read off the events themselves. */
module JournalMeaning {
  import opened Wrappers
  import opened Identifiers
  import opened CohortJournal

  // --- The transition rules ---

  /** One kickoff, first; nothing after a completion; one attempt, one repair result after it; one result per package. */
  ghost predicate Lawful(j: Journal) {
    && (forall i | 0 <= i < |j| :: j[i].KickoffEvent? <==> i == 0)
    && (forall i | 0 <= i < |j| - 1 :: !j[i].CompletedEvent?)
    && (forall i, k | 0 <= i < k < |j| :: !(j[i].RepairAttemptEvent? && j[k].RepairAttemptEvent?))
    && (forall i, k | 0 <= i < k < |j| :: !(j[i].RepairResultEvent? && j[k].RepairResultEvent?))
    && (forall i, k | 0 <= i < k < |j| :: j[i].ResultEvent? && j[k].ResultEvent? ==> j[i].package != j[k].package)
    && (forall k | 0 <= k < |j| && j[k].RepairResultEvent? :: exists i | 0 <= i < k :: j[i].RepairAttemptEvent?)
  }

  lemma LawfulSnoc(j: Journal, e: Event)
    ensures Lawful(j + [e]) <==> Lawful(j) && Accepts(j, e)
  {
    var k := j + [e];
    assert k[|j|] == e && forall i | 0 <= i < |j| :: k[i] == j[i];
    if Lawful(k) {
      forall n | 0 <= n < |j| && j[n].RepairResultEvent? ensures exists i | 0 <= i < n :: j[i].RepairAttemptEvent? {
        var i :| 0 <= i < n && k[i].RepairAttemptEvent?;
        assert j[i].RepairAttemptEvent?;
      }
    }
    if Lawful(j) && Accepts(j, e) {
      forall n | 0 <= n < |k| && k[n].RepairResultEvent? ensures exists i | 0 <= i < n :: k[i].RepairAttemptEvent? {
        var i :| 0 <= i < n && i < |j| && j[i].RepairAttemptEvent?;
        assert k[i].RepairAttemptEvent?;
      }
    }
  }

  /** A journal is accepted event by event exactly when it is lawful as a whole. */
  lemma {:induction false} AcceptedExactly(j: Journal)
    ensures Accepted(j) <==> Lawful(j)
  {
    if j != [] {
      var before := j[..|j| - 1];
      AcceptedExactly(before);
      LawfulSnoc(before, j[|j| - 1]);
      assert j == before + [j[|j| - 1]];
    }
  }

  // --- What replay remembers ---

  /** The packages of the dispatches, in order. */
  function Batches(j: Journal): seq<seq<Id>> {
    if |j| <= 1 then []
    else Batches(j[..|j| - 1]) + (if j[|j| - 1].DispatchEvent? then [j[|j| - 1].packages] else [])
  }

  /** The latest result of a package, recorded or repaired. */
  function Latest(j: Journal, p: Id): Option<PackageResult> {
    if |j| <= 1 then None
    else
      var e := j[|j| - 1];
      if e.ResultEvent? && e.package == p then Some(e.result)
      else if e.RepairResultEvent? && Mended(e.repaired, p).Some? then Mended(e.repaired, p)
      else Latest(j[..|j| - 1], p)
  }

  function Mended(repaired: seq<(Id, PackageResult)>, p: Id): Option<PackageResult> {
    if repaired == [] then None
    else if repaired[|repaired| - 1].0 == p then Some(repaired[|repaired| - 1].1)
    else Mended(repaired[..|repaired| - 1], p)
  }

  predicate Repairs(e: Event) {
    e.RepairAttemptEvent? || e.RepairResultEvent?
  }

  /** The latest convergence since the last repair event. */
  function Converged(j: Journal): Option<Convergence> {
    if |j| <= 1 || Repairs(j[|j| - 1]) then None
    else if j[|j| - 1].ConvergenceEvent? then Some(j[|j| - 1].convergence)
    else Converged(j[..|j| - 1])
  }

  /** The latest verification since the last repair event. */
  function Verified(j: Journal): Option<Verification> {
    if |j| <= 1 || Repairs(j[|j| - 1]) then None
    else if j[|j| - 1].VerificationEvent? then Some(j[|j| - 1].verification)
    else Verified(j[..|j| - 1])
  }

  /** The peak bounds the running packages of every dispatch, and is one of them unless there was none. */
  ghost predicate IsPeak(j: Journal, peak: int) {
    && (forall i | 0 < i < |j| && j[i].DispatchEvent? :: j[i].activeCount <= peak)
    && (peak == 0 || exists i | 0 < i < |j| :: j[i].DispatchEvent? && j[i].activeCount == peak)
  }

  lemma IsPeakSnoc(j: Journal, e: Event, peak: int)
    requires j != [] && IsPeak(j, peak)
    ensures IsPeak(j + [e], if e.DispatchEvent? && e.activeCount > peak then e.activeCount else peak)
  {
    var k := j + [e];
    assert k[|j|] == e && forall i | 0 <= i < |j| :: k[i] == j[i];
    if peak != 0 {
      var i :| 0 < i < |j| && j[i].DispatchEvent? && j[i].activeCount == peak;
      assert k[i].DispatchEvent? && k[i].activeCount == peak;
    }
  }

  lemma {:induction false} RepairMends(results: map<Id, PackageResult>, repaired: seq<(Id, PackageResult)>, p: Id)
    ensures p in Repair(results, repaired) <==> p in results || Mended(repaired, p).Some?
    ensures p in Repair(results, repaired) ==>
              Repair(results, repaired)[p] == if Mended(repaired, p).Some? then Mended(repaired, p).value else results[p]
  {
    if repaired != [] { RepairMends(results, repaired[..|repaired| - 1], p); }
  }

  lemma {:induction false} ReplayedResult(ids: set<Id>, j: Journal, p: Id)
    requires j != [] && Replay(ids, j).Some?
    ensures p in Replay(ids, j).value.results <==> Latest(j, p).Some?
    ensures Latest(j, p).Some? ==> Replay(ids, j).value.results[p] == Latest(j, p).value
    decreases |j|
  {
    if |j| > 1 {
      var before := j[..|j| - 1];
      ReplayedResult(ids, before, p);
      if j[|j| - 1].RepairResultEvent? { RepairMends(Replay(ids, before).value.results, j[|j| - 1].repaired, p); }
    }
  }

  lemma VerdictsStep(ids: set<Id>, r: Replayed, e: Event)
    requires ReplayOne(ids, r, e).Some?
    ensures var n := ReplayOne(ids, r, e).value;
            && n.batches == (if e.DispatchEvent? then r.batches + [e.packages] else r.batches)
            && n.peak == (if e.DispatchEvent? && e.activeCount > r.peak then e.activeCount else r.peak)
            && n.convergence == (if Repairs(e) then None else if e.ConvergenceEvent? then Some(e.convergence) else r.convergence)
            && n.verification == (if Repairs(e) then None else if e.VerificationEvent? then Some(e.verification) else r.verification)
  {}

  /** Replay gives back the dispatches, their peak, and the latest verdicts. */
  lemma {:induction false} ReplayedVerdicts(ids: set<Id>, j: Journal)
    requires j != [] && Replay(ids, j).Some?
    ensures var r := Replay(ids, j).value;
            && r.batches == Batches(j) && IsPeak(j, r.peak)
            && r.convergence == Converged(j) && r.verification == Verified(j)
    decreases |j|
  {
    hide ReplayOne, IsPeak;
    if |j| > 1 {
      var before, e := j[..|j| - 1], j[|j| - 1];
      ReplayedVerdicts(ids, before);
      VerdictsStep(ids, Replay(ids, before).value, e);
      IsPeakSnoc(before, e, Replay(ids, before).value.peak);
      assert j == before + [e];
    } else {
      NoPeak(j);
    }
  }

  lemma NoPeak(j: Journal)
    requires |j| == 1
    ensures IsPeak(j, 0)
  {}

  /** What replay demands of a recorded package result. */
  lemma {:induction false} ReplayedSource(ids: set<Id>, j: Journal, i: nat)
    requires j != [] && Replay(ids, j).Some? && 0 < i < |j| && j[i].ResultEvent?
    ensures j[i].package in ids
    ensures j[i].source.FromExecutor? ==> exists k | 0 < k < i :: j[k].DispatchEvent? && j[i].package in j[k].packages
    ensures j[i].source.FromPolicy? ==> j[i].result.state.BlockedPolicy?
    ensures j[i].source.FromDependency? ==> j[i].result.state.BlockedDependency?
    decreases |j|
  {
    var before := j[..|j| - 1];
    if i < |j| - 1 {
      ReplayedSource(ids, before, i);
      if j[i].source.FromExecutor? {
        var k :| 0 < k < i && before[k].DispatchEvent? && before[i].package in before[k].packages;
        assert j[k].DispatchEvent? && j[i].package in j[k].packages;
      }
    } else if j[i].source.FromExecutor? {
      var k := Dispatched(ids, before, j[i].package);
      assert j[k].DispatchEvent?;
    }
  }

  lemma {:induction false} Dispatched(ids: set<Id>, j: Journal, p: Id) returns (k: nat)
    requires j != [] && Replay(ids, j).Some? && p in Replay(ids, j).value.dispatched
    ensures 0 < k < |j| && j[k].DispatchEvent? && p in j[k].packages
    decreases |j|
  {
    var before := j[..|j| - 1];
    if j[|j| - 1].DispatchEvent? && p in j[|j| - 1].packages {
      k := |j| - 1;
    } else {
      k := Dispatched(ids, before, p);
    }
  }

  // --- The status of a run ---

  /** Succeeded: everything did. Failed: a package, the convergence or the verification did. Blocked: otherwise. */
  lemma StatusExactly(results: map<Id, PackageResult>, c: Convergence, v: Verification)
    ensures Status(results, c, v).RunSucceeded? <==>
              c.accepted && v.passed && forall p | p in results :: results[p].state.Succeeded?
    ensures Status(results, c, v).RunFailed? <==>
              !c.accepted || !v.passed || exists p | p in results :: results[p].state.Failed?
    ensures Status(results, c, v).RunBlocked? <==>
              c.accepted && v.passed && (forall p | p in results :: !results[p].state.Failed?)
              && exists p | p in results :: results[p].state.BlockedDependency? || results[p].state.BlockedPolicy?
  {}
}
