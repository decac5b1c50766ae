/**
 Journals that the plain and the assured runtime wrote in turn. The plain runtime converges and
 verifies without evidence, and the assured runtime takes the latest evidence in the journal
 without comparing its digest, so the evidence promise of assured journals is lost on some of them.
 */
module CohortMixedJournals {
  import opened Wrappers
  import opened Identifiers
  import opened OutcomeGraph
  import opened CohortJournal
  import opened CohortRuntime
  import opened CohortRuns
  import opened CohortExecution
  import opened CohortAssurance

  /** How the plain runtime ends a journal that has no convergence. */
  function PlainEnding(j: Journal, convergence: Convergence, verification: Verification, status: RunStatus): Journal {
    j + [ConvergenceEvent(convergence)] + [VerificationEvent(verification)] + [CompletedEvent(status)]
  }

  /** After evidence for another candidate, a success of the plain runtime is stale. */
  lemma PlainEndingIsStale(c: Cohort, record: string, j: Journal, convergence: Convergence, verification: Verification)
    requires Concluding(c, record, j) && Replay(c.g.Keys, j).value.convergence.None?
    requires LastEvidence(j).Some? && LastEvidence(j).value.candidate != Digest(convergence)
    requires Status(Replay(c.g.Keys, j).value.results, convergence, verification).RunSucceeded?
    ensures var k := PlainEnding(j, convergence, verification, RunSucceeded);
            && CompletedJournal(c, record, k) && Judged(c, record, k)
            && Stale(c, record, k) && Returned(c, record, k).status.RunSucceeded? && !Evidenced(Returned(c, record, k))
  {
    hide Accepted, Replay, LastEvidence;
    var k1 := j + [ConvergenceEvent(convergence)];
    var k2 := k1 + [VerificationEvent(verification)];
    ConcludeSnoc(c, record, j, ConvergenceEvent(convergence));
    ConcludeSnoc(c, record, k1, VerificationEvent(verification));
    CompleteSnoc(c, record, k2);
    EvidenceSnoc(j, ConvergenceEvent(convergence));
    EvidenceSnoc(k1, VerificationEvent(verification));
    EvidenceSnoc(k2, CompletedEvent(RunSucceeded));
    EvidencedExactly(c, record, PlainEnding(j, convergence, verification, RunSucceeded));
  }

  /**
   A success without any evidence turns into a failure. If no repair follows it is completed as one,
   and that completion contradicts the results on every later read, which then raises.
   */
  lemma UnevidencedIsPoisoned(c: Cohort, record: string, j: Journal)
    requires Concluding(c, record, j) && Unevidenced(c, record, j)
    ensures var k := j + [CompletedEvent(Returned(c, record, j).status)];
            Returned(c, record, j).status.RunFailed? && Accepted(k) && Replay(c.g.Keys, k).Some? && !Readable(c, record, k)
  {
    ReadableExactly(c, record, j);
  }

  // --- An instance ---

  const Fine := PackageResult(Succeeded, "", [], "")

  /** One package that succeeds. */
  function Lone(): Cohort {
    Cohort(map["A" := Package({}, {}, {})], map["A" := 0], {}, (p, deps) => Fine)
  }

  const First := Convergence(true, "first", "")
  const Second := Convergence(true, "second", "")
  const Passed := Verification(true, [], "")

  /** An assured run gathers the result and converges a first candidate... */
  function Gathered(): Journal {
    [KickoffEvent("")] + [DispatchEvent(["A"], 1)] + [ResultEvent("A", Fine, FromExecutor)] + [ConvergenceEvent(First)]
  }

  /** ...journals evidence for it, fails it, announces a repair and dies. */
  function Abandoned(): Journal {
    Gathered() + [EvidenceEvent(Evidence(Digest(First), "producer", "inspector", []))]
    + [VerificationEvent(Rejection)] + [RepairAttemptEvent(Directive(["A"], "again"))]
  }

  lemma Append(ids: set<Id>, j: Journal, e: Event)
    requires j != [] && Accepted(j) && Replay(ids, j).Some? && Replay(ids, j).value.completion.None?
    requires !e.KickoffEvent? && !e.RepairAttemptEvent? && !e.RepairResultEvent? && !e.CompletedEvent?
    requires e.ResultEvent? ==> e.package !in Replay(ids, j).value.results
    requires ReplayOne(ids, Replay(ids, j).value, e).Some?
    ensures Accepted(j + [e]) && Replay(ids, j + [e]) == ReplayOne(ids, Replay(ids, j).value, e)
    ensures HasAttempt(j + [e]) == HasAttempt(j)
    ensures LastEvidence(j + [e]) == if e.EvidenceEvent? then Some(e.evidence) else LastEvidence(j)
  {
    hide HasAttempt, LastEvidence;
    RunEventAccepted(ids, j, e);
    AcceptedSnoc(j, e);
    ReplaySnoc(ids, j, e);
    HasSnoc(j, e);
    EvidenceSnoc(j, e);
  }

  lemma GatheredReads()
    ensures Gathered() != [] && Accepted(Gathered()) && !HasAttempt(Gathered())
    ensures Replay({"A"}, Gathered()) == Some(Replayed(map["A" := Fine], [["A"]], {"A"}, 1, Some(First), None, None))
  {
    var j := [KickoffEvent("")];
    AcceptedSnoc([], KickoffEvent(""));
    hide Accepted, HasAttempt, LastEvidence, Replay;
    KickoffReplays({"A"});
    assert Elements(["A"]) == {"A"};
    var none: seq<seq<Id>>, nobody: set<Id>, no: map<Id, PackageResult> := [], {}, map[];
    assert none + [["A"]] == [["A"]] && nobody + {"A"} == {"A"} && no["A" := Fine] == map["A" := Fine];
    Append({"A"}, j, DispatchEvent(["A"], 1));
    j := j + [DispatchEvent(["A"], 1)];
    Append({"A"}, j, ResultEvent("A", Fine, FromExecutor));
    j := j + [ResultEvent("A", Fine, FromExecutor)];
    Append({"A"}, j, ConvergenceEvent(First));
  }

  lemma KickoffReplays(ids: set<Id>)
    ensures Replay(ids, [KickoffEvent("")]) == Some(EmptyReplay()) && !HasAttempt([KickoffEvent("")])
  {}

  lemma AbandonedReads()
    ensures Accepted(Abandoned()) && HasAttempt(Abandoned())
    ensures Replay({"A"}, Abandoned()) == Some(Replayed(map["A" := Fine], [["A"]], {"A"}, 1, None, None, None))
    ensures LastEvidence(Abandoned()).Some? && LastEvidence(Abandoned()).value.candidate == "first"
  {
    GatheredReads();
    hide Gathered, Accepted, HasAttempt, LastEvidence, Replay;
    var j, evidence := Gathered(), EvidenceEvent(Evidence(Digest(First), "producer", "inspector", []));
    var attempt := RepairAttemptEvent(Directive(["A"], "again"));
    Append({"A"}, j, evidence);
    j := j + [evidence];
    Append({"A"}, j, VerificationEvent(Rejection));
    j := j + [VerificationEvent(Rejection)];
    AttemptAccepted({"A"}, j, attempt);
    AcceptedSnoc(j, attempt);
    ReplaySnoc({"A"}, j, attempt);
    HasSnoc(j, attempt);
    EvidenceSnoc(j, attempt);
  }

  /** An assured run left this journal, and the plain runtime then completed it with a second candidate. */
  lemma MixedJournalLosesEvidence()
    ensures AssuredJournal(Lone(), "", Abandoned())
    ensures var k := PlainEnding(Abandoned(), Second, Passed, RunSucceeded);
            && CompletedJournal(Lone(), "", k) && Judged(Lone(), "", k)
            && Returned(Lone(), "", k).status.RunSucceeded? && !Evidenced(Returned(Lone(), "", k))
  {
    AbandonedReads();
    var c := Lone();
    assert c.g.Keys == {"A"} && ValidCohort(c);
    assert Abandoned()[0] == KickoffEvent("");
    hide Accepted, Replay, HasAttempt, LastEvidence, Abandoned;
    assert "first"[0] != "second"[0];
    FineSucceeds();
    PlainEndingIsStale(c, "", Abandoned(), Second, Passed);
  }

  /** The plain runtime gathers, converges and passes, and dies before it completes. */
  function Unfinished(): Journal {
    Gathered() + [VerificationEvent(Passed)]
  }

  lemma FineSucceeds()
    ensures Status(map["A" := Fine], First, Passed) == RunSucceeded
    ensures Status(map["A" := Fine], Second, Passed) == RunSucceeded
  {
    var results := map["A" := Fine];
    assert forall p | p in results :: results[p].state.Succeeded?;
  }

  lemma UnfinishedReads()
    ensures Unfinished() != [] && Unfinished()[0] == KickoffEvent("") && Accepted(Unfinished()) && !HasAttempt(Unfinished())
    ensures Replay({"A"}, Unfinished()) == Some(Replayed(map["A" := Fine], [["A"]], {"A"}, 1, Some(First), Some(Passed), None))
    ensures LastEvidence(Unfinished()).None? && EventsSound(Lone(), Unfinished())
  {
    GatheredReads();
    LoneIsSound();
    assert Gathered()[0] == KickoffEvent("");
    hide Gathered, Accepted, HasAttempt, LastEvidence, Replay, EventsSound, Lone;
    Append({"A"}, Gathered(), VerificationEvent(Passed));
    SoundSnoc(Lone(), Gathered(), VerificationEvent(Passed));
  }

  /** An assured run whose planner has no repair completes that journal as failed, and nobody can read it again. */
  lemma PlainJournalIsPoisoned()
    ensures RunJournal(Lone(), "", Unfinished()) && Concluding(Lone(), "", Unfinished())
    ensures Unevidenced(Lone(), "", Unfinished()) && !HasAttempt(Unfinished())
    ensures var k := Unfinished() + [CompletedEvent(RunFailed)];
            Accepted(k) && Replay({"A"}, k).Some? && !Readable(Lone(), "", k)
  {
    UnfinishedReads();
    FineSucceeds();
    var c := Lone();
    assert c.g.Keys == {"A"} && ValidCohort(c);
    hide Unfinished, Accepted, HasAttempt, LastEvidence, Replay, EventsSound, Lone, Returned;
    UnevidencedIsPoisoned(c, "", Unfinished());
  }

  lemma LoneIsSound()
    ensures EventsSound(Lone(), Gathered()) && LastEvidence(Gathered()).None?
  {
    var c := Lone();
    assert SpecDependencies(c, "A") == map[];
    assert Spec(c, "A") == Fine;
    EvidenceSnoc([], KickoffEvent(""));
    EvidenceSnoc([KickoffEvent("")], DispatchEvent(["A"], 1));
    EvidenceSnoc([KickoffEvent("")] + [DispatchEvent(["A"], 1)], ResultEvent("A", Fine, FromExecutor));
    EvidenceSnoc([KickoffEvent("")] + [DispatchEvent(["A"], 1)] + [ResultEvent("A", Fine, FromExecutor)], ConvergenceEvent(First));
    assert [] + [KickoffEvent("")] == [KickoffEvent("")];
  }
}
