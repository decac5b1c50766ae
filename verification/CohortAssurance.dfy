/**
 End-loaded assurance over the cohort runtime: terminal evidence must bind the converged
 candidate, and a failed cohort gets at most one consolidated repair wave.
 */
module CohortAssurance {
  import opened Wrappers
  import opened Identifiers
  import opened OutcomeGraph
  import opened CohortJournal
  import opened CohortRuntime
  import opened CohortRuns
  import opened CohortStall
  import opened CohortExecution

  /** `convergence_candidate_digest`; a digest is injective, so the output stands for it. */
  function Digest(c: Convergence): string {
    c.output
  }

  /** An assessor raises, returns something untyped, or returns a verification with its evidence. */
  datatype Assessment = Raised | Assessed(verification: Verification, evidence: Evidence)

  type Assessor = (map<Id, PackageResult>, Convergence) -> Assessment
  type Planner = RunResult -> Option<Directive>
  type RepairExecutor = (Id, map<Id, PackageResult>, Directive) -> PackageResult

  const Rejection := Verification(false, [], "terminal assessment failed")

  /** An assessment counts only if its evidence binds the candidate it was made for. */
  predicate Binds(a: Assessment, c: Convergence) {
    a.Assessed? && a.evidence.candidate == Digest(c)
  }

  // --- What is retained ---

  function LastEvidence(j: Journal): Option<Evidence> {
    if j == [] then None
    else if j[|j| - 1].EvidenceEvent? then Some(j[|j| - 1].evidence)
    else LastEvidence(j[..|j| - 1])
  }

  predicate HasAttempt(j: Journal) {
    exists i | 0 <= i < |j| :: j[i].RepairAttemptEvent?
  }

  predicate HasRepaired(j: Journal) {
    exists i | 0 <= i < |j| :: j[i].RepairResultEvent?
  }

  /** The first repair directive in the journal. */
  function RetainedRepair(j: Journal): (d: Option<Directive>)
    ensures d.Some? <==> HasAttempt(j)
    ensures d.Some? ==> RepairAttemptEvent(d.value) in j
  {
    if j == [] then None
    else
      var before := RetainedRepair(j[..|j| - 1]);
      assert before.Some? ==> exists i | 0 <= i < |j| - 1 :: j[i].RepairAttemptEvent? by {
        if before.Some? {
          var i :| 0 <= i < |j| - 1 && j[..|j| - 1][i].RepairAttemptEvent?;
          assert j[i].RepairAttemptEvent?;
        }
      }
      assert before.None? ==> forall i | 0 <= i < |j| - 1 :: !j[i].RepairAttemptEvent? by {
        forall i | 0 <= i < |j| - 1 && j[i].RepairAttemptEvent? ensures before.Some? {
          assert j[..|j| - 1][i].RepairAttemptEvent?;
        }
      }
      if before.Some? then before
      else if j[|j| - 1].RepairAttemptEvent? then Some(j[|j| - 1].directive) else None
  }

  /** An accepted journal holds at most one repair attempt and one repair result. */
  lemma {:induction false} OneRepair(j: Journal, i: nat, k: nat)
    requires Accepted(j) && i < k < |j|
    ensures !(j[i].RepairAttemptEvent? && j[k].RepairAttemptEvent?)
    ensures !(j[i].RepairResultEvent? && j[k].RepairResultEvent?)
    decreases |j|
  {
    if k < |j| - 1 {
      OneRepair(j[..|j| - 1], i, k);
    } else {
      assert j[..|j| - 1][i] == j[i];
    }
  }

  /** A verification that passed is covered by evidence for the convergence it verified. */
  ghost predicate Covered(ids: set<Id>, j: Journal)
    requires j != [] && Replay(ids, j).Some?
  {
    var r := Replay(ids, j).value;
    r.verification.Some? && r.verification.value.passed ==>
      r.convergence.Some? && LastEvidence(j).Some? && LastEvidence(j).value.candidate == Digest(r.convergence.value)
  }

  /** What assured runs keep: passed verifications are covered, and unrepaired results are the cohort's own. */
  ghost predicate Trusted(c: Cohort, j: Journal)
    requires j != [] && Replay(c.g.Keys, j).Some?
  {
    Covered(c.g.Keys, j) && (!HasAttempt(j) && !HasRepaired(j) ==> EventsSound(c, j))
  }

  /** A journal that assured runs of this cohort leave behind, at any point. */
  ghost predicate AssuredJournal(c: Cohort, record: string, j: Journal) {
    && Readable(c, record, j) && Trusted(c, j)
    && (HasAttempt(j) ==> Replay(c.g.Keys, j).value.results.Keys == c.g.Keys)
  }

  /** Any journal that replays with a convergence and a verification. */
  ghost predicate Judged(c: Cohort, record: string, j: Journal) {
    && Readable(c, record, j)
    && Replay(c.g.Keys, j).value.convergence.Some? && Replay(c.g.Keys, j).value.verification.Some?
  }

  lemma HasSnoc(j: Journal, e: Event)
    ensures HasAttempt(j + [e]) <==> HasAttempt(j) || e.RepairAttemptEvent?
    ensures HasRepaired(j + [e]) <==> HasRepaired(j) || e.RepairResultEvent?
  {
    var k := j + [e];
    assert k[|j|] == e;
    forall i | 0 <= i < |j| ensures k[i] == j[i] {}
    if HasAttempt(k) { var i :| 0 <= i < |k| && k[i].RepairAttemptEvent?; assert i < |j| ==> j[i].RepairAttemptEvent?; }
    if HasAttempt(j) { var i :| 0 <= i < |j| && j[i].RepairAttemptEvent?; assert k[i].RepairAttemptEvent?; }
    if HasRepaired(k) { var i :| 0 <= i < |k| && k[i].RepairResultEvent?; assert i < |j| ==> j[i].RepairResultEvent?; }
    if HasRepaired(j) { var i :| 0 <= i < |j| && j[i].RepairResultEvent?; assert k[i].RepairResultEvent?; }
  }

  lemma EvidenceSnoc(j: Journal, e: Event)
    ensures LastEvidence(j + [e]) == if e.EvidenceEvent? then Some(e.evidence) else LastEvidence(j)
  {
    assert (j + [e])[..|j|] == j;
  }

  lemma SoundSnoc(c: Cohort, j: Journal, e: Event)
    requires EventsSound(c, j) && !e.ResultEvent? && !e.RepairAttemptEvent? && !e.RepairResultEvent?
    ensures EventsSound(c, j + [e])
  {
    hide ResultSound;
  }

  /** Appending a convergence, evidence or verification to a journal with all results in. */
  lemma TerminalSnoc(c: Cohort, record: string, j: Journal, e: Event)
    requires Concluding(c, record, j)
    requires || ((e.ConvergenceEvent? || e.EvidenceEvent?) && Replay(c.g.Keys, j).value.verification.None?)
             || (e.VerificationEvent? && Replay(c.g.Keys, j).value.convergence.Some?)
    ensures Concluding(c, record, j + [e])
    ensures Replay(c.g.Keys, j + [e]) == ReplayOne(c.g.Keys, Replay(c.g.Keys, j).value, e)
    ensures LastEvidence(j + [e]) == if e.EvidenceEvent? then Some(e.evidence) else LastEvidence(j)
    ensures HasAttempt(j + [e]) == HasAttempt(j)
    ensures Trusted(c, j) && (e.VerificationEvent? && e.verification.passed ==>
              LastEvidence(j).Some? && LastEvidence(j).value.candidate == Digest(Replay(c.g.Keys, j).value.convergence.value))
            ==> Trusted(c, j + [e])
  {
    hide EventsSound, HasAttempt, HasRepaired, Accepted, LastEvidence;
    RunEventAccepted(c.g.Keys, j, e);
    AcceptedSnoc(j, e);
    ReplaySnoc(c.g.Keys, j, e);
    HasSnoc(j, e);
    EvidenceSnoc(j, e);
    if EventsSound(c, j) { SoundSnoc(c, j, e); }
  }

  /** A completion makes the journal readable exactly when it is the status of the results. */
  lemma SealSnoc(c: Cohort, record: string, j: Journal, status: RunStatus)
    requires Concluding(c, record, j) && Judged(c, record, j)
    ensures var k := j + [CompletedEvent(status)];
            && Accepted(k) && Replay(c.g.Keys, k) == Some(Replay(c.g.Keys, j).value.(completion := Some(status)))
            && (Readable(c, record, k) <==> status == Status(Replay(c.g.Keys, j).value.results,
                  Replay(c.g.Keys, j).value.convergence.value, Replay(c.g.Keys, j).value.verification.value))
            && HasAttempt(k) == HasAttempt(j) && (Trusted(c, j) ==> Trusted(c, k))
  {
    hide EventsSound, HasAttempt, HasRepaired, LastEvidence;
    var e := CompletedEvent(status);
    RunEventAccepted(c.g.Keys, j, e);
    AcceptedSnoc(j, e);
    ReplaySnoc(c.g.Keys, j, e);
    HasSnoc(j, e);
    EvidenceSnoc(j, e);
    if EventsSound(c, j) { SoundSnoc(c, j, e); }
  }

  lemma {:induction false} RepairNeedsAttempt(j: Journal)
    requires Accepted(j) && HasRepaired(j)
    ensures HasAttempt(j)
  {
    var before := j[..|j| - 1];
    if j[|j| - 1].RepairResultEvent? {
      var i :| 0 <= i < |before| && before[i].RepairAttemptEvent?;
      assert j[i].RepairAttemptEvent?;
    } else {
      var i :| 0 <= i < |j| && j[i].RepairResultEvent?;
      assert before[i].RepairResultEvent?;
      RepairNeedsAttempt(before);
      var k :| 0 <= k < |before| && before[k].RepairAttemptEvent?;
      assert j[k].RepairAttemptEvent?;
    }
  }

  lemma AttemptSnoc(c: Cohort, record: string, j: Journal, d: Directive)
    requires Concluding(c, record, j) && !HasAttempt(j)
    ensures Concluding(c, record, j + [RepairAttemptEvent(d)]) && HasAttempt(j + [RepairAttemptEvent(d)])
    ensures !HasRepaired(j + [RepairAttemptEvent(d)]) && Trusted(c, j + [RepairAttemptEvent(d)])
    ensures Replay(c.g.Keys, j + [RepairAttemptEvent(d)]).value
         == Replay(c.g.Keys, j).value.(convergence := None, verification := None)
  {
    hide EventsSound, HasAttempt, HasRepaired;
    var e := RepairAttemptEvent(d);
    AttemptAccepted(c.g.Keys, j, e);
    AcceptedSnoc(j, e);
    ReplaySnoc(c.g.Keys, j, e);
    HasSnoc(j, e);
    if HasRepaired(j) { RepairNeedsAttempt(j); }
  }

  lemma NotCompleted(ids: set<Id>, j: Journal)
    requires Accepted(j) && j != [] && Replay(ids, j).Some? && Replay(ids, j).value.completion.None?
    ensures forall i | 0 <= i < |j| :: !j[i].CompletedEvent?
  {
    FirstIsKickoff(j, 0);
    forall i | 0 <= i < |j| ensures !j[i].CompletedEvent? {
      if i > 0 && j[i].CompletedEvent? { ReplayKeepsCompletion(ids, j, i); }
    }
  }

  lemma AttemptAccepted(ids: set<Id>, j: Journal, e: Event)
    requires Accepted(j) && j != [] && Replay(ids, j).Some? && Replay(ids, j).value.completion.None?
    requires (e.RepairAttemptEvent? && !HasAttempt(j)) || (e.RepairResultEvent? && HasAttempt(j) && !HasRepaired(j))
    ensures Accepts(j, e)
  {
    NotCompleted(ids, j);
  }

  lemma RepairedSnoc(c: Cohort, record: string, j: Journal, repaired: seq<(Id, PackageResult)>)
    requires Concluding(c, record, j) && HasAttempt(j) && !HasRepaired(j)
    requires repaired != [] && forall i | 0 <= i < |repaired| :: repaired[i].0 in c.g
    ensures Concluding(c, record, j + [RepairResultEvent(repaired)])
    ensures var r := Replay(c.g.Keys, j + [RepairResultEvent(repaired)]).value;
            && r.convergence.None? && r.verification.None? && r.results == Repair(Replay(c.g.Keys, j).value.results, repaired)
    ensures HasAttempt(j + [RepairResultEvent(repaired)]) && Trusted(c, j + [RepairResultEvent(repaired)])
  {
    hide EventsSound, HasAttempt, HasRepaired;
    var e := RepairResultEvent(repaired);
    AttemptAccepted(c.g.Keys, j, e);
    AcceptedSnoc(j, e);
    ReplaySnoc(c.g.Keys, j, e);
    HasSnoc(j, e);
    RepairKeys(Replay(c.g.Keys, j).value.results, repaired, c.g.Keys);
  }

  lemma {:induction false} RepairKeys(results: map<Id, PackageResult>, repaired: seq<(Id, PackageResult)>, ids: set<Id>)
    requires results.Keys == ids && forall i | 0 <= i < |repaired| :: repaired[i].0 in ids
    ensures Repair(results, repaired).Keys == ids
  {
    if repaired != [] { RepairKeys(results, repaired[..|repaired| - 1], ids); }
  }

  // --- The repair wave ---

  /** `_validate_repair`: known, ungated, unrelated and clash-free targets. */
  predicate ValidRepair(g: Packages, gated: set<Id>, d: Directive) {
    && d.packages != [] && (forall i, k | 0 <= i < k < |d.packages| :: d.packages[i] != d.packages[k])
    && (forall p | p in d.packages :: p in g && p !in gated)
    && (forall p, q | p in d.packages && q in d.packages :: p in g && q in g && q !in g[p].deps)
    && (forall p, q | p in d.packages && q in d.packages && p != q ::
          p in g && q in g && g[p].paths !! g[q].paths && g[p].locks !! g[q].locks)
  }

  /** The scheduler's books while exactly the packages `t` run. */
  ghost function Running(g: Packages, t: set<Id>): Loop
    requires t <= g.Keys
  {
    Loop({}, map[], t, |t|, PathsOf(g, t), LocksOf(g, t), [], 0, [])
  }

  /** A directive is valid exactly when its targets could run at once: distinct, known, ungated, independent, exclusive. */
  lemma ValidRepairExactly(g: Packages, gated: set<Id>, d: Directive)
    ensures var t := Elements(d.packages);
            ValidRepair(g, gated, d) <==>
              && t != {} && Distinct(d.packages) && t <= g.Keys && t !! gated
              && (forall p | p in t :: g[p].deps !! t) && Exclusive(g, Running(g, t))
  {
    var t := Elements(d.packages);
    assert forall p :: p in d.packages <==> p in t;
    if t != {} { var p :| p in t; assert p in d.packages; }
    if d.packages != [] { assert d.packages[0] in t; }
  }

  /** All targets run together, each on the dependency results from before the wave. */
  function Wave(g: Packages, current: map<Id, PackageResult>, d: Directive, exec: RepairExecutor): (r: seq<(Id, PackageResult)>)
    requires forall p | p in d.packages :: p in g
    ensures |r| == |d.packages| && forall i | 0 <= i < |r| :: r[i].0 == d.packages[i]
  {
    seq(|d.packages|, i requires 0 <= i < |d.packages| =>
      (d.packages[i], exec(d.packages[i], DependencyResults(g, current, d.packages[i]), d)))
  }

  /** The same repairs made one after the other, each seeing the ones before it. */
  ghost function OneByOne(g: Packages, current: map<Id, PackageResult>, d: Directive, exec: RepairExecutor, n: nat): map<Id, PackageResult>
    requires n <= |d.packages| && forall p | p in d.packages :: p in g
  {
    if n == 0 then current
    else
      var before := OneByOne(g, current, d, exec, n - 1);
      var p := d.packages[n - 1];
      before[p := exec(p, DependencyResults(g, before, p), d)]
  }

  lemma RepairPrefix(results: map<Id, PackageResult>, repaired: seq<(Id, PackageResult)>, n: nat)
    requires 0 < n <= |repaired|
    ensures Repair(results, repaired[..n]) == Repair(results, repaired[..n - 1])[repaired[n - 1].0 := repaired[n - 1].1]
  {
    assert repaired[..n][..n - 1] == repaired[..n - 1];
  }

  /** A valid wave may run in parallel: the result is that of any serial order of its targets. */
  lemma {:induction false} WaveIsSerial(g: Packages, gated: set<Id>, current: map<Id, PackageResult>, d: Directive, exec: RepairExecutor, n: nat)
    requires ValidRepair(g, gated, d) && n <= |d.packages| && forall p | p in d.packages :: p in g
    ensures OneByOne(g, current, d, exec, n) == Repair(current, Wave(g, current, d, exec)[..n])
  {
    if n > 0 {
      var wave := Wave(g, current, d, exec);
      var p := d.packages[n - 1];
      assert p in g && wave[n - 1] == (p, exec(p, DependencyResults(g, current, p), d));
      hide ValidRepair, Wave, Repair, DependencyResults;
      WaveIsSerial(g, gated, current, d, exec, n - 1);
      SameDependencies(g, gated, current, d, exec, n);
      RepairPrefix(current, wave, n);
    }
  }

  /** No target depends on a target, so a serial repair sees what the wave saw. */
  lemma SameDependencies(g: Packages, gated: set<Id>, current: map<Id, PackageResult>, d: Directive, exec: RepairExecutor, n: nat)
    requires ValidRepair(g, gated, d) && 0 < n <= |d.packages|
    ensures var p := d.packages[n - 1];
            p in g && DependencyResults(g, OneByOne(g, current, d, exec, n - 1), p) == DependencyResults(g, current, p)
  {
    hide OneByOne;
    var p := d.packages[n - 1];
    assert p in d.packages;
    UntargetedUnchanged(g, current, d, exec, n - 1);
    forall q | q in g[p].deps ensures q !in d.packages {}
  }

  lemma {:induction false} UntargetedUnchanged(g: Packages, current: map<Id, PackageResult>, d: Directive, exec: RepairExecutor, n: nat)
    requires n <= |d.packages| && forall p | p in d.packages :: p in g
    ensures forall q | q !in d.packages :: (q in OneByOne(g, current, d, exec, n) <==> q in current)
    ensures forall q | q !in d.packages && q in current :: OneByOne(g, current, d, exec, n)[q] == current[q]
  {
    if n > 0 {
      UntargetedUnchanged(g, current, d, exec, n - 1);
      assert d.packages[n - 1] in d.packages;
    }
  }

  // --- The assured run ---

  datatype AssuredResult = AssuredResult(
    status: RunStatus, results: map<Id, PackageResult>, convergence: Convergence, verification: Verification,
    evidence: Option<Evidence>, directive: Option<Directive>)

  datatype AssuredOutcome = Interrupted | CannotProgress | RepairRefused | Assured(result: AssuredResult)

  /** A succeeded result carries evidence whose digest is that of its own convergence. */
  ghost predicate Evidenced(r: AssuredResult) {
    && r.status == Status(r.results, r.convergence, r.verification)
    && (r.status.RunSucceeded? ==> r.evidence.Some? && r.evidence.value.candidate == Digest(r.convergence))
  }

  ghost predicate Completes(c: Cohort, j: Journal, r: AssuredResult) {
    && j != [] && Replay(c.g.Keys, j).Some?
    && var s := Replay(c.g.Keys, j).value;
       && s.completion == Some(r.status) && s.results == r.results
       && s.convergence == Some(r.convergence) && s.verification == Some(r.verification)
  }

  /** Evidence, if any, is for this candidate, and a passed verification has it. */
  ghost predicate Supports(evidence: Option<Evidence>, v: Verification, c: Convergence) {
    && (evidence.Some? ==> evidence.value.candidate == Digest(c))
    && (v.passed ==> evidence.Some?)
  }

  // --- What a judged journal returns ---

  const Missing := Verification(false, [], "terminal evidence is missing")

  /** What the assured run makes of a judged journal: success without any evidence is turned into a failure. */
  function Returned(c: Cohort, record: string, j: Journal): (r: AssuredResult)
    requires Judged(c, record, j)
    ensures r.status == Status(r.results, r.convergence, r.verification)
    ensures var s := Replay(c.g.Keys, j).value; r.results == s.results && Some(r.convergence) == s.convergence
    ensures r.evidence == LastEvidence(j) && r.directive == RetainedRepair(j)
  {
    var s := Replay(c.g.Keys, j).value;
    var status := Status(s.results, s.convergence.value, s.verification.value);
    var verification := if status.RunSucceeded? && LastEvidence(j).None? then Missing else s.verification.value;
    AssuredResult(Status(s.results, s.convergence.value, verification), s.results, s.convergence.value, verification,
                  LastEvidence(j), RetainedRepair(j))
  }

  ghost predicate JudgedSuccess(c: Cohort, record: string, j: Journal) {
    && Judged(c, record, j)
    && var s := Replay(c.g.Keys, j).value; Status(s.results, s.convergence.value, s.verification.value).RunSucceeded?
  }

  /** A success whose latest evidence is for another candidate. */
  ghost predicate Stale(c: Cohort, record: string, j: Journal) {
    && JudgedSuccess(c, record, j) && LastEvidence(j).Some?
    && LastEvidence(j).value.candidate != Digest(Replay(c.g.Keys, j).value.convergence.value)
  }

  /** A success without any evidence. */
  ghost predicate Unevidenced(c: Cohort, record: string, j: Journal) {
    JudgedSuccess(c, record, j) && LastEvidence(j).None?
  }

  /** The evidence promise holds exactly for the journals whose latest evidence is not for another candidate. */
  lemma EvidencedExactly(c: Cohort, record: string, j: Journal)
    requires Judged(c, record, j)
    ensures Evidenced(Returned(c, record, j)) <==> !Stale(c, record, j)
  {}

  /** Completing with the returned status keeps the journal readable exactly when a success has evidence. */
  lemma ReadableExactly(c: Cohort, record: string, j: Journal)
    requires Concluding(c, record, j) && Judged(c, record, j)
    ensures var k := j + [CompletedEvent(Returned(c, record, j).status)];
            && Accepted(k) && Replay(c.g.Keys, k).Some?
            && (Readable(c, record, k) <==> !Unevidenced(c, record, j))
  {
    hide Accepted, Replay;
    SealSnoc(c, record, j, Returned(c, record, j).status);
  }

  lemma TrustedIsCovered(c: Cohort, record: string, j: Journal)
    requires Readable(c, record, j) && Trusted(c, j)
    ensures !Stale(c, record, j) && !Unevidenced(c, record, j)
  {
    hide EventsSound, HasAttempt, HasRepaired;
  }

  /** A verdict just made in an assured run is neither stale nor without evidence. */
  lemma FreshVerdict(c: Cohort, record: string, j: Journal, evidence: Option<Evidence>)
    requires Judged(c, record, j)
    requires Supports(evidence, Replay(c.g.Keys, j).value.verification.value, Replay(c.g.Keys, j).value.convergence.value)
    requires evidence.Some? ==> LastEvidence(j) == evidence
    ensures !Stale(c, record, j) && !Unevidenced(c, record, j)
  {}

  /** The assessor's verdict counts if its evidence is for this candidate; otherwise the verification fails without any. */
  ghost predicate Verdict(assess: Assessor, results: map<Id, PackageResult>, convergence: Convergence, v: Verification, evidence: Option<Evidence>) {
    var a := assess(results, convergence);
    if a.Assessed? && a.evidence.candidate == Digest(convergence) then v == a.verification && evidence == Some(a.evidence)
    else !v.passed && evidence.None?
  }

  /** A journal judged in this run: the results as they were, converged unless they had been, and assessed. */
  ghost predicate JudgedNow(c: Cohort, j: Journal, k: Journal, converge: Converger, assess: Assessor, evidence: Option<Evidence>)
    requires j != [] && k != [] && Replay(c.g.Keys, j).Some? && Replay(c.g.Keys, k).Some?
  {
    var r, n := Replay(c.g.Keys, j).value, Replay(c.g.Keys, k).value;
    && n.results == r.results && n.convergence.Some? && n.verification.Some?
    && n.convergence.value == (if r.convergence.Some? then r.convergence.value else converge(r.results))
    && Verdict(assess, r.results, n.convergence.value, n.verification.value, evidence)
  }

  class AssuranceRuntime {
    const runtime: Runtime

    constructor (runtime: Runtime)
      ensures this.runtime == runtime
    {
      this.runtime := runtime;
    }

    /** The assessor's verdict on a convergence, with its evidence appended first. */
    method Assess(c: Cohort, record: string, results: map<Id, PackageResult>, convergence: Convergence, assess: Assessor, reliable: bool)
      returns (crashed: bool, verification: Verification, evidence: Option<Evidence>)
      requires Concluding(c, record, runtime.journal)
      requires Replay(c.g.Keys, runtime.journal).value.convergence == Some(convergence)
      requires Replay(c.g.Keys, runtime.journal).value.verification.None?
      modifies runtime
      ensures reliable ==> !crashed
      ensures Concluding(c, record, runtime.journal) && old(runtime.journal) <= runtime.journal
      ensures Trusted(c, old(runtime.journal)) ==> Trusted(c, runtime.journal)
      ensures HasAttempt(runtime.journal) == HasAttempt(old(runtime.journal))
      ensures !crashed ==>
        Replay(c.g.Keys, runtime.journal).value == Replay(c.g.Keys, old(runtime.journal)).value.(verification := Some(verification))
      ensures !crashed ==> Verdict(assess, results, convergence, verification, evidence)
      ensures !crashed ==> Supports(evidence, verification, convergence)
      ensures !crashed && evidence.Some? ==> LastEvidence(runtime.journal) == evidence
    {
      hide Trusted, HasAttempt, Readable;
      var a := assess(results, convergence);
      verification, evidence := Rejection, None;
      if Binds(a, convergence) {
        TerminalSnoc(c, record, runtime.journal, EvidenceEvent(a.evidence));
        runtime.journal := runtime.journal + [EvidenceEvent(a.evidence)];
        crashed := Dies(reliable);
        if crashed {
          return;
        }
        verification, evidence := a.verification, Some(a.evidence);
      }
      TerminalSnoc(c, record, runtime.journal, VerificationEvent(verification));
      runtime.journal := runtime.journal + [VerificationEvent(verification)];
      crashed := Dies(reliable);
    }

    /** Converge and assess what has not been converged and assessed yet. */
    method Judge(c: Cohort, record: string, converge: Converger, assess: Assessor, reliable: bool)
      returns (crashed: bool, evidence: Option<Evidence>)
      requires Concluding(c, record, runtime.journal)
      modifies runtime
      ensures reliable ==> !crashed
      ensures Concluding(c, record, runtime.journal) && old(runtime.journal) <= runtime.journal
      ensures Trusted(c, old(runtime.journal)) ==> Trusted(c, runtime.journal)
      ensures HasAttempt(runtime.journal) == HasAttempt(old(runtime.journal))
      ensures Judged(c, record, old(runtime.journal)) ==> !crashed && runtime.journal == old(runtime.journal)
      ensures !crashed ==> Judged(c, record, runtime.journal)
      ensures !crashed && !Judged(c, record, old(runtime.journal)) ==>
        JudgedNow(c, old(runtime.journal), runtime.journal, converge, assess, evidence)
      ensures !crashed && !Judged(c, record, old(runtime.journal)) ==>
        var r := Replay(c.g.Keys, runtime.journal).value;
        && Supports(evidence, r.verification.value, r.convergence.value)
        && (evidence.Some? ==> LastEvidence(runtime.journal) == evidence)
    {
      hide HasAttempt, Trusted, Accepted;
      ConcludingOrder(c, record, runtime.journal);
      crashed, evidence := false, None;
      var r := Replay(c.g.Keys, runtime.journal).value;
      var convergence := if r.convergence.Some? then r.convergence.value else converge(r.results);
      if r.convergence.None? {
        TerminalSnoc(c, record, runtime.journal, ConvergenceEvent(convergence));
        runtime.journal := runtime.journal + [ConvergenceEvent(convergence)];
        crashed := Dies(reliable);
        if crashed {
          return;
        }
      }
      if r.verification.None? {
        var verification: Verification;
        crashed, verification, evidence := Assess(c, record, r.results, convergence, assess, reliable);
      }
    }

    /** `record_completion` */
    method Seal(c: Cohort, record: string, status: RunStatus, reliable: bool) returns (crashed: bool)
      requires Concluding(c, record, runtime.journal) && Judged(c, record, runtime.journal)
      modifies runtime
      ensures reliable ==> !crashed
      ensures runtime.journal == old(runtime.journal) + [CompletedEvent(status)]
    {
      runtime.journal := runtime.journal + [CompletedEvent(status)];
      crashed := Dies(reliable);
    }

    /** The one repair wave: its attempt is journaled before any repair runs. */
    method RunRepair(c: Cohort, record: string, d: Directive, converge: Converger, assess: Assessor, exec: RepairExecutor, reliable: bool)
      returns (crashed: bool, evidence: Option<Evidence>)
      requires Concluding(c, record, runtime.journal) && !HasAttempt(runtime.journal) && ValidRepair(c.g, c.gated, d)
      modifies runtime
      ensures reliable ==> !crashed
      ensures Concluding(c, record, runtime.journal) && old(runtime.journal) <= runtime.journal
      ensures HasAttempt(runtime.journal) && Trusted(c, runtime.journal)
      ensures !crashed ==>
        && Judged(c, record, runtime.journal)
        && var r := Replay(c.g.Keys, runtime.journal).value;
           && Supports(evidence, r.verification.value, r.convergence.value)
           && r.results == Repair(Replay(c.g.Keys, old(runtime.journal)).value.results,
                                  Wave(c.g, Replay(c.g.Keys, old(runtime.journal)).value.results, d, exec))
           && r.convergence.value == converge(r.results)
           && Verdict(assess, r.results, r.convergence.value, r.verification.value, evidence)
      ensures RepairAttemptEvent(d) in runtime.journal
    {
      hide HasAttempt, HasRepaired, Trusted, Accepted;
      evidence := None;
      var current := Replay(c.g.Keys, runtime.journal).value.results;
      AttemptSnoc(c, record, runtime.journal, d);
      runtime.journal := runtime.journal + [RepairAttemptEvent(d)];
      crashed := Dies(reliable);
      if crashed {
        return;
      }
      var repaired := Wave(c.g, current, d, exec);
      assert forall i | 0 <= i < |repaired| :: repaired[i].0 in c.g by {
        forall i | 0 <= i < |repaired| ensures repaired[i].0 in c.g { assert d.packages[i] in d.packages; }
      }
      RepairedSnoc(c, record, runtime.journal, repaired);
      runtime.journal := runtime.journal + [RepairResultEvent(repaired)];
      crashed := Dies(reliable);
      if crashed {
        return;
      }
      crashed, evidence := Judge(c, record, converge, assess, reliable);
    }

    /**
     `execute`. `wave` tells whether a repair wave was started by this call: it never is when
     the journal already holds an attempt, so there is at most one per journal. The journal may
     be one that the plain runtime continued, as long as all results are in.
     */
    method Execute(c: Cohort, w: int, record: string, converge: Converger, assess: Assessor, plan: Planner, exec: RepairExecutor, reliable: bool)
      returns (o: AssuredOutcome, wave: bool, ghost judged: Journal)
      requires w >= 1 && ValidCohort(c)
      requires runtime.journal == [] || AssuredJournal(c, record, runtime.journal) || Resolved(c, record, runtime.journal)
      modifies runtime
      ensures reliable ==> o != Interrupted
      ensures old(runtime.journal) <= runtime.journal
      ensures wave ==> !HasAttempt(old(runtime.journal)) && HasAttempt(runtime.journal)
      ensures old(runtime.journal) == [] || AssuredJournal(c, record, old(runtime.journal)) ==>
                && AssuredJournal(c, record, runtime.journal)
                && (o.Assured? ==> Evidenced(o.result) && Completes(c, runtime.journal, o.result))
      ensures o.Assured? ==> (Evidenced(o.result) <==> !Stale(c, record, old(runtime.journal)))
      ensures CompletedJournal(c, record, old(runtime.journal)) ==>
                runtime.journal == old(runtime.journal) && Judged(c, record, runtime.journal)
                && o == Assured(Returned(c, record, runtime.journal))
      ensures o.Assured? && !CompletedJournal(c, record, old(runtime.journal)) ==>
                (Readable(c, record, runtime.journal) <==> wave || !Unevidenced(c, record, old(runtime.journal)))
      ensures o.CannotProgress? ==> exists p :: Cascade(c, p)
      ensures (o.Assured? || o.RepairRefused?) && !CompletedJournal(c, record, old(runtime.journal)) ==>
                && old(runtime.journal) <= judged <= runtime.journal
                && JudgedFrom(c, record, old(runtime.journal), judged, converge, assess)
                && Decided(c, record, judged, plan, converge, assess, exec, o, wave)
                && (if Resolved(c, record, old(runtime.journal))
                    then Replay(c.g.Keys, judged).value.results == Replay(c.g.Keys, old(runtime.journal)).value.results
                    else AsSpecified(c, Replay(c.g.Keys, judged).value.results))
    {
      hide Trusted, HasAttempt, HasRepaired, Evidenced, Stale, Unevidenced, Completes, Returned, AsRun, Accepted,
           JudgedFrom, Decided, AsSpecified, Cascade;
      wave, judged := false, runtime.journal;
      NoVerdict(c, record, runtime.journal);
      if runtime.journal == [] {
        FreshAssured(c, record);
        runtime.journal := [KickoffEvent(record)];
        var crashed := Dies(reliable);
        if crashed {
          return Interrupted, false, judged;
        }
      }
      var r := Replay(c.g.Keys, runtime.journal).value;
      if r.completion.Some? {
        EvidencedExactly(c, record, runtime.journal);
        if Trusted(c, runtime.journal) { AssuredIsCompleted(c, record, runtime.journal); }
        o := Assured(Returned(c, record, runtime.journal));
        return;
      }
      if r.results.Keys != c.g.Keys {
        UnresolvedIsRunJournal(c, record, runtime.journal);
        NoVerdict(c, record, runtime.journal);
        var crashed, stalled := Gather(c, w, record, reliable);
        if crashed || stalled {
          return if stalled then CannotProgress else Interrupted, false, judged;
        }
        NoVerdict(c, record, runtime.journal);
      }
      if Trusted(c, runtime.journal) { TrustedIsCovered(c, record, runtime.journal); }
      if c.g.Keys == {} { NothingToSpecify(c); }
      ghost var gathered := runtime.journal;
      o, wave, judged := Settle(c, record, converge, assess, plan, exec, reliable);
      if o != Interrupted { JudgedFromEarlier(c, record, old(runtime.journal), gathered, judged, converge, assess); }
    }

    /** Bring all results in, through the cohort runtime. */
    method Gather(c: Cohort, w: int, record: string, reliable: bool) returns (crashed: bool, stalled: bool)
      requires w >= 1 && AssuredJournal(c, record, runtime.journal)
      requires Replay(c.g.Keys, runtime.journal).value.results.Keys != c.g.Keys
      modifies runtime
      ensures reliable ==> !crashed
      ensures AssuredJournal(c, record, runtime.journal) && old(runtime.journal) <= runtime.journal
      ensures !HasAttempt(runtime.journal) && !HasAttempt(old(runtime.journal))
      ensures stalled ==> exists p :: Cascade(c, p)
      ensures !crashed && !stalled ==>
                Concluding(c, record, runtime.journal) && AsSpecified(c, Replay(c.g.Keys, runtime.journal).value.results)
      ensures var r := Replay(c.g.Keys, runtime.journal).value; r.verification.None? && r.convergence.None?
    {
      hide EventsSound, HasAttempt, HasRepaired, Agrees, Cascade, Accepted;
      UnresolvedIsRunJournal(c, record, runtime.journal);
      var s: Loop;
      crashed, stalled, s := runtime.ReachConvergence(c, w, record, reliable);
      GatheredAssured(c, record, old(runtime.journal), runtime.journal);
    }

    /** Judge, plan and run at most one repair, and complete. */
    method Settle(c: Cohort, record: string, converge: Converger, assess: Assessor, plan: Planner, exec: RepairExecutor, reliable: bool)
      returns (o: AssuredOutcome, wave: bool, ghost judged: Journal)
      requires Concluding(c, record, runtime.journal)
      modifies runtime
      ensures reliable ==> o != Interrupted
      ensures old(runtime.journal) <= runtime.journal
      ensures wave ==> !HasAttempt(old(runtime.journal)) && HasAttempt(runtime.journal)
      ensures Trusted(c, old(runtime.journal)) ==>
                AssuredJournal(c, record, runtime.journal) && (o.Assured? ==> Completes(c, runtime.journal, o.result))
      ensures o.Assured? ==> (Evidenced(o.result) <==> !Stale(c, record, old(runtime.journal)))
      ensures o.Assured? ==> (Readable(c, record, runtime.journal) <==> wave || !Unevidenced(c, record, old(runtime.journal)))
      ensures o != Interrupted ==>
                && old(runtime.journal) <= judged <= runtime.journal
                && JudgedFrom(c, record, old(runtime.journal), judged, converge, assess)
                && Decided(c, record, judged, plan, converge, assess, exec, o, wave) && !o.CannotProgress?
                && Replay(c.g.Keys, judged).value.results == Replay(c.g.Keys, old(runtime.journal)).value.results
    {
      hide Trusted, HasAttempt, HasRepaired, LastEvidence, Accepted, Evidenced, Completes, IsMended;
      wave := false;
      var crashed, evidence := Judge(c, record, converge, assess, reliable);
      judged := runtime.journal;
      if crashed {
        return Interrupted, false, judged;
      }
      if !Judged(c, record, old(runtime.journal)) {
        FreshVerdict(c, record, judged, evidence);
        FreshIsJudgedFrom(c, record, old(runtime.journal), judged, converge, assess, evidence);
      }
      var result := Returned(c, record, runtime.journal);
      if !result.status.RunSucceeded? && !HasAttempt(runtime.journal) {
        var directive := plan(AsRun(c, record, runtime.journal));
        if directive.Some? {
          if !ValidRepair(c.g, c.gated, directive.value) {
            return RepairRefused, false, judged;
          }
          o := Mend(c, record, directive.value, converge, assess, exec, reliable);
          return o, true, judged;
        }
      }
      o := Complete(c, record, reliable);
    }

    /** Complete a judged journal as it stands. */
    method Complete(c: Cohort, record: string, reliable: bool) returns (o: AssuredOutcome)
      requires Concluding(c, record, runtime.journal) && Judged(c, record, runtime.journal)
      modifies runtime
      ensures reliable ==> o.Assured?
      ensures runtime.journal == old(runtime.journal) + [CompletedEvent(Returned(c, record, old(runtime.journal)).status)]
      ensures Trusted(c, old(runtime.journal)) ==>
                AssuredJournal(c, record, runtime.journal) && (o.Assured? ==> Completes(c, runtime.journal, o.result))
      ensures o == Interrupted || o == Assured(Returned(c, record, old(runtime.journal)))
      ensures Evidenced(Returned(c, record, old(runtime.journal))) <==> !Stale(c, record, old(runtime.journal))
      ensures Readable(c, record, runtime.journal) <==> !Unevidenced(c, record, old(runtime.journal))
    {
      hide HasAttempt, HasRepaired, EventsSound, Accepted, Covered;
      var result := Returned(c, record, runtime.journal);
      if Trusted(c, runtime.journal) { TrustedIsCovered(c, record, runtime.journal); }
      EvidencedExactly(c, record, runtime.journal);
      ReadableExactly(c, record, runtime.journal);
      SealSnoc(c, record, runtime.journal, result.status);
      var crashed := Seal(c, record, result.status, reliable);
      o := if crashed then Interrupted else Assured(result);
    }

    /** The repair wave and the completion after it. */
    method Mend(c: Cohort, record: string, d: Directive, converge: Converger, assess: Assessor, exec: RepairExecutor, reliable: bool)
      returns (o: AssuredOutcome)
      requires Concluding(c, record, runtime.journal) && !HasAttempt(runtime.journal) && ValidRepair(c.g, c.gated, d)
      modifies runtime
      ensures reliable ==> o.Assured?
      ensures old(runtime.journal) <= runtime.journal && HasAttempt(runtime.journal)
      ensures AssuredJournal(c, record, runtime.journal)
      ensures o == Interrupted || (o.Assured? && Evidenced(o.result) && Completes(c, runtime.journal, o.result)
                                   && IsMended(c, old(runtime.journal), d, converge, assess, exec, o.result))
    {
      hide Trusted, HasAttempt, HasRepaired, LastEvidence, Accepted;
      var crashed, evidence := RunRepair(c, record, d, converge, assess, exec, reliable);
      if crashed {
        return Interrupted;
      }
      var r := Replay(c.g.Keys, runtime.journal).value;
      var status := Status(r.results, r.convergence.value, r.verification.value);
      var result := AssuredResult(status, r.results, r.convergence.value, r.verification.value,
                                  evidence, RetainedRepair(runtime.journal));
      AttemptIsRetained(runtime.journal, d);
      SealSnoc(c, record, runtime.journal, status);
      crashed := Seal(c, record, status, reliable);
      o := if crashed then Interrupted else Assured(result);
    }
  }

  lemma AttemptIsRetained(j: Journal, d: Directive)
    requires Accepted(j) && RepairAttemptEvent(d) in j
    ensures RetainedRepair(j) == Some(d)
  {
    var i :| 0 <= i < |j| && j[i] == RepairAttemptEvent(d);
    assert HasAttempt(j);
    var e := RepairAttemptEvent(RetainedRepair(j).value);
    var k :| 0 <= k < |j| && j[k] == e;
    if i < k { OneRepair(j, i, k); } else if k < i { OneRepair(j, k, i); }
  }

  /** How a judged journal came from `j`: it is `j`, or `j` with its results converged and assessed. */
  ghost predicate JudgedFrom(c: Cohort, record: string, j: Journal, judged: Journal, converge: Converger, assess: Assessor) {
    && Judged(c, record, judged)
    && if Judged(c, record, j) then judged == j
       else exists evidence :: FreshlyJudged(c, j, judged, converge, assess, evidence)
  }

  ghost predicate FreshlyJudged(c: Cohort, j: Journal, judged: Journal, converge: Converger, assess: Assessor, evidence: Option<Evidence>) {
    && judged != [] && Replay(c.g.Keys, judged).Some?
    && var n := Replay(c.g.Keys, judged).value;
       && n.convergence.Some? && n.verification.Some?
       && n.convergence.value == (if Retains(c, j).Some? then Retains(c, j).value else converge(n.results))
       && Verdict(assess, n.results, n.convergence.value, n.verification.value, evidence)
       && (evidence.Some? ==> LastEvidence(judged) == evidence)
  }

  lemma FreshIsJudgedFrom(c: Cohort, record: string, j: Journal, k: Journal, converge: Converger, assess: Assessor, evidence: Option<Evidence>)
    requires Readable(c, record, j) && Judged(c, record, k) && !Judged(c, record, j)
    requires JudgedNow(c, j, k, converge, assess, evidence) && (evidence.Some? ==> LastEvidence(k) == evidence)
    ensures JudgedFrom(c, record, j, k, converge, assess)
  {
    hide Accepted, LastEvidence, Replay, Verdict;
    assert FreshlyJudged(c, j, k, converge, assess, evidence);
  }

  ghost predicate AsSpecified(c: Cohort, results: map<Id, PackageResult>)
    requires ValidCohort(c)
  {
    forall p | p in c.g :: p in results && Agrees(results[p], Spec(c, p))
  }

  lemma NothingToSpecify(c: Cohort)
    requires ValidCohort(c) && c.g.Keys == {}
    ensures forall results :: AsSpecified(c, results)
  {}

  /** The convergence that a journal retains, if any. */
  ghost function Retains(c: Cohort, j: Journal): Option<Convergence> {
    if j == [] || Replay(c.g.Keys, j).None? then None else Replay(c.g.Keys, j).value.convergence
  }

  lemma JudgedFromEarlier(c: Cohort, record: string, i: Journal, j: Journal, judged: Journal, converge: Converger, assess: Assessor)
    requires JudgedFrom(c, record, j, judged, converge, assess) && Retains(c, i) == Retains(c, j)
    requires i == j || (!Judged(c, record, i) && !Judged(c, record, j))
    ensures JudgedFrom(c, record, i, judged, converge, assess)
  {
    hide Judged, Replay, Verdict, LastEvidence;
    if i != j {
      var evidence :| FreshlyJudged(c, j, judged, converge, assess, evidence);
      assert FreshlyJudged(c, i, judged, converge, assess, evidence);
    }
  }

  /** A result after the repair wave: the repaired results, converged and assessed anew. */
  ghost predicate IsMended(c: Cohort, judged: Journal, d: Directive, converge: Converger, assess: Assessor, exec: RepairExecutor, r: AssuredResult) {
    && judged != [] && Replay(c.g.Keys, judged).Some? && (forall p | p in d.packages :: p in c.g)
    && var before := Replay(c.g.Keys, judged).value.results;
       && r.results == Repair(before, Wave(c.g, before, d, exec)) && r.directive == Some(d)
       && r.convergence == converge(r.results) && Verdict(assess, r.results, r.convergence, r.verification, r.evidence)
  }

  /** What is done with a judged journal: a repair exactly if it failed, none was attempted and the planner has one. */
  ghost predicate Decided(c: Cohort, record: string, judged: Journal, plan: Planner, converge: Converger, assess: Assessor, exec: RepairExecutor,
                          o: AssuredOutcome, wave: bool) {
    && Judged(c, record, judged)
    && var directive := plan(AsRun(c, record, judged));
       var wanted := !Returned(c, record, judged).status.RunSucceeded? && !HasAttempt(judged) && directive.Some?;
       && (o.RepairRefused? <==> wanted && !ValidRepair(c.g, c.gated, directive.value))
       && (wave <==> wanted && !o.RepairRefused?)
       && (o.Assured? && !wave ==> o.result == Returned(c, record, judged))
       && (o.Assured? && wave ==> IsMended(c, judged, directive.value, converge, assess, exec, o.result))
  }

  /** What the planner is shown. */
  function AsRun(c: Cohort, record: string, j: Journal): (n: RunResult)
    requires Judged(c, record, j)
    ensures n.status == Status(n.results, n.convergence, n.verification)
    ensures var s := Replay(c.g.Keys, j).value;
            n.results == s.results && Some(n.convergence) == s.convergence && n.batches == s.batches && n.peak == s.peak
  {
    var s, r := Replay(c.g.Keys, j).value, Returned(c, record, j);
    RunResult(r.status, r.results, r.convergence, r.verification, s.batches, s.peak)
  }

  lemma FreshAssured(c: Cohort, record: string)
    requires ValidCohort(c)
    ensures AssuredJournal(c, record, [KickoffEvent(record)])
    ensures !HasAttempt([]) && !HasAttempt([KickoffEvent(record)])
    ensures Replay(c.g.Keys, [KickoffEvent(record)]) == Some(EmptyReplay())
  {
    FreshJournal(c, record);
  }

  /** Without a retained verification there is nothing stale or without evidence. */
  lemma NoVerdict(c: Cohort, record: string, j: Journal)
    ensures j == [] || (Replay(c.g.Keys, j).Some? && Replay(c.g.Keys, j).value.verification.None?) ==>
              !Stale(c, record, j) && !Unevidenced(c, record, j)
  {}

  ghost predicate CompletedJournal(c: Cohort, record: string, j: Journal) {
    Readable(c, record, j) && Replay(c.g.Keys, j).value.completion.Some?
  }

  /** A completed journal of assured runs returns what it completed with. */
  lemma AssuredIsCompleted(c: Cohort, record: string, j: Journal)
    requires CompletedJournal(c, record, j) && Trusted(c, j)
    ensures !Stale(c, record, j) && Completes(c, j, Returned(c, record, j))
  {
    hide EventsSound, HasAttempt, HasRepaired;
  }

  /** An assured journal without all results has no repair and no verdict. */
  lemma UnresolvedIsRunJournal(c: Cohort, record: string, j: Journal)
    requires AssuredJournal(c, record, j) && Replay(c.g.Keys, j).value.results.Keys != c.g.Keys
    ensures !HasAttempt(j) && !HasRepaired(j) && RunJournal(c, record, j)
    ensures var r := Replay(c.g.Keys, j).value; r.convergence.None? && r.verification.None? && r.completion.None?
  {
    hide EventsSound, HasAttempt, HasRepaired;
    ReplayOrder(c.g.Keys, j);
    if HasRepaired(j) { RepairNeedsAttempt(j); }
  }

  /** Scheduling appends no evidence, verdict or repair. */
  lemma GatheredAssured(c: Cohort, record: string, j: Journal, k: Journal)
    requires RunJournal(c, record, j) && !HasAttempt(j) && !HasRepaired(j) && Replay(c.g.Keys, j).value.verification.None?
    requires OnlyRunEvents(j, k) && RunJournal(c, record, k)
    ensures AssuredJournal(c, record, k) && !HasAttempt(k) && Replay(c.g.Keys, k).value.verification.None?
    ensures Replay(c.g.Keys, k).value.convergence == Replay(c.g.Keys, j).value.convergence
  {
    hide ResultSound, Accepted;
    forall i | 0 <= i < |k| ensures EventSound(c, k[i]) {}
    RunEventsKeepVerdicts(c.g.Keys, j, k);
  }
}
