/**
 `CohortRuntime.execute` with a journal: replay, gate, schedule, converge, verify, complete.
 Which workers finish next, and whether the process dies after an append, is left open.
 */
module CohortExecution {
  import opened Wrappers
  import opened Identifiers
  import opened OutcomeGraph
  import opened CohortJournal
  import opened CohortRuntime
  import opened CohortRuns
  import opened CohortStall

  /** Ids with their converged results in, a candidate or a verdict out; exceptions are folded in. */
  type Converger = map<Id, PackageResult> -> Convergence
  type Verifier = (map<Id, PackageResult>, Convergence) -> Verification

  datatype RunResult = RunResult(
    status: RunStatus, results: map<Id, PackageResult>, convergence: Convergence, verification: Verification,
    batches: seq<seq<Id>>, peak: int)

  datatype Outcome = Crashed | Stalled | Refused | Finished(result: RunResult)

  /** Replay sees convergence only after all results, verification only after convergence, completion last of all. */
  lemma {:induction false} ReplayOrder(ids: set<Id>, j: Journal)
    requires j != [] && Accepted(j) && Replay(ids, j).Some?
    ensures var r := Replay(ids, j).value;
            && r.results.Keys <= ids
            && (r.verification.Some? ==> r.convergence.Some?)
            && (r.convergence.Some? ==> r.results.Keys == ids)
            && (r.completion.Some? ==> r.verification.Some? && j[|j| - 1].CompletedEvent?)
  {
    if |j| > 1 {
      var before, e := j[..|j| - 1], j[|j| - 1];
      ReplayOrder(ids, before);
      if e.RepairResultEvent? { RepairWithin(Replay(ids, before).value.results, e.repaired, ids); }
    }
  }

  lemma {:induction false} RepairWithin(results: map<Id, PackageResult>, repaired: seq<(Id, PackageResult)>, ids: set<Id>)
    requires results.Keys <= ids && forall i | 0 <= i < |repaired| :: repaired[i].0 in ids
    ensures results.Keys <= Repair(results, repaired).Keys <= ids
  {
    if repaired != [] { RepairWithin(results, repaired[..|repaired| - 1], ids); }
  }

  /** A journal that reads and replays, with repairs or without, whose completion is the status of its results. */
  ghost predicate Readable(c: Cohort, record: string, j: Journal) {
    && ValidCohort(c) && j != [] && j[0] == KickoffEvent(record) && Accepted(j)
    && Replay(c.g.Keys, j).Some?
    && var r := Replay(c.g.Keys, j).value;
       r.completion.Some? ==>
         r.convergence.Some? && r.verification.Some? && r.completion.value == Status(r.results, r.convergence.value, r.verification.value)
  }

  /** A readable journal with all results in, whoever recorded or repaired them. */
  ghost predicate Resolved(c: Cohort, record: string, j: Journal) {
    Readable(c, record, j) && Replay(c.g.Keys, j).value.results.Keys == c.g.Keys
  }

  /** A journal that runs of this cohort leave behind, at any point. */
  ghost predicate RunJournal(c: Cohort, record: string, j: Journal) {
    Readable(c, record, j) && EventsSound(c, j)
  }

  lemma GoodIsRunJournal(c: Cohort, w: int, s: Loop, record: string)
    requires Good(c, w, s) && s.journal[0] == KickoffEvent(record)
    ensures RunJournal(c, record, s.journal)
  {
    hide Shape, Counted, EventsSound;
  }

  // --- The passes, as loops ---

  /** Whether the process dies at this point; on a reliable host it does not. */
  method Dies(reliable: bool) returns (crashed: bool)
    ensures reliable ==> !crashed
  {
    crashed := *;
    crashed := crashed && !reliable;
  }

  method BlockPass(c: Cohort, ghost w: int, s: Loop, reliable: bool) returns (crashed: bool, s': Loop)
    requires Good(c, w, s)
    ensures reliable ==> !crashed
    ensures s.pending <= c.g.Keys && s.pending !! s.results.Keys
    ensures Good(c, w, s') && Keeps(s, s')
    ensures !crashed ==> s' == Blocked(c.g, s)
  {
    hide Good, EventsSound;
    BlockedGood(c, w, s);
    var rest := Doomed(c.g, s);
    s' := s;
    while rest != {}
      invariant rest <= s'.pending && rest <= c.g.Keys && rest !! s'.results.Keys
      invariant forall p | p in rest :: Unsuccessful(c.g, s'.results, p) != {}
      invariant BlockAll(c.g, rest, s') == Blocked(c.g, s)
      invariant Good(c, w, s') && Keeps(s, s')
      decreases rest
    {
      var p := Least(rest);
      BlockOneGood(c, w, p, s');
      BlockRest(c.g, rest, s', p);
      KeepsThen(s, s', BlockOne(c.g, p, s'));
      s' := BlockOne(c.g, p, s');
      rest := rest - {p};
      crashed := Dies(reliable);
      if crashed {
        return;
      }
    }
    crashed := false;
  }

  lemma BlockRest(g: Packages, rest: set<Id>, s: Loop, p: Id)
    requires rest <= g.Keys && rest !! s.results.Keys && p in rest && rest <= s.pending
    requires forall q | q in rest :: Unsuccessful(g, s.results, q) != {}
    ensures var t := BlockOne(g, p, s);
            && rest - {p} <= t.pending && rest - {p} !! t.results.Keys
            && forall q | q in rest - {p} :: Unsuccessful(g, t.results, q) != {}
  {
    var t := BlockOne(g, p, s);
    forall q | q in rest - {p} ensures Unsuccessful(g, t.results, q) != {} {
      UnsuccessfulGrows(g, s.results, q, p, t.results[p]);
    }
  }

  method LaunchPass(c: Cohort, w: int, b: Loop) returns (l: Launching)
    requires Good(c, w, b)
    ensures b.pending <= c.g.Keys
    ensures l == LaunchAll(c.g, w, b.pending, Launching(b, []))
  {
    hide Good;
    LaunchStart(c, w, b);
    var rest := b.pending;
    l := Launching(b, []);
    while rest != {} && l.loop.count < w
      invariant rest <= c.g.Keys
      invariant LaunchAll(c.g, w, rest, l) == LaunchAll(c.g, w, b.pending, Launching(b, []))
      decreases rest
    {
      var p := Least(rest);
      if Ready(c.g, l.loop.results, p) && Fits(c.g, l.loop, p) {
        l := Launching(LaunchOne(c.g, p, l.loop), l.launched + [p]);
      }
      rest := rest - {p};
    }
  }

  /** `wait` returns some nonempty set of finished workers; they are taken in any order. */
  method CompletePass(c: Cohort, ghost w: int, s: Loop, reliable: bool) returns (crashed: bool, s': Loop)
    requires Good(c, w, s) && s.active != {}
    ensures reliable ==> !crashed
    ensures Good(c, w, s') && Keeps(s, s')
    ensures !crashed ==> s.results.Keys < s'.results.Keys
  {
    hide Good, EventsSound;
    var completed: set<Id> :| completed <= s.active && completed != {};
    s' := s;
    while completed != {}
      invariant completed <= s'.active && Good(c, w, s') && Keeps(s, s')
      invariant completed != {} || s.results.Keys < s'.results.Keys
      decreases completed
    {
      var p :| p in completed;
      FinishGood(c, w, p, s');
      GoodIsDisjoint(c, w, s');
      assert p !in s'.results && p !in s.results;
      KeepsThen(s, s', Finish(c, p, s'));
      s' := CompleteOne(c.g, p, c.exec(p, DependencyResults(c.g, s'.results, p)), s');
      completed := completed - {p};
      crashed := Dies(reliable);
      if crashed {
        return;
      }
    }
    crashed := false;
  }

  /** One turn of the scheduling loop; `stalled` is the "cannot make progress" error. */
  method OneTurn(c: Cohort, w: int, top: Loop, reliable: bool) returns (crashed: bool, stalled: bool, s: Loop)
    requires Good(c, w, top) && w >= 1
    ensures reliable ==> !crashed
    ensures Good(c, w, s) && Keeps(top, s)
    ensures top.pending <= c.g.Keys && top.pending !! top.results.Keys
    ensures stalled ==> !crashed && exists p :: Cascade(c, p)
    ensures !crashed ==> (stalled <==> Stalls(c.g, w, top))
    ensures !crashed && !stalled ==> Converged(s) || top.results.Keys < s.results.Keys
  {
    hide Good, EventsSound, Cascade, RecordDispatch;
    stalled := false;
    PassesGood(c, w, top);
    BlockedGood(c, w, top);
    crashed, s := BlockPass(c, w, top, reliable);
    if crashed {
      return;
    }
    var l := LaunchPass(c, w, s);
    s := RecordDispatch(l);
    assert s == Passes(c.g, w, top);
    PassesKeep(top, Doomed(c.g, top), Blocked(c.g, top), s);
    crashed := Dies(reliable);
    if crashed {
      return;
    }
    if s.active == {} {
      if s.pending != {} {
        StallNeedsCascade(c, w, top);
        stalled := true;
      }
      return;
    }
    ghost var waiting := s;
    crashed, s := CompletePass(c, w, s, reliable);
    KeepsThen(top, waiting, s);
  }

  /** The scheduling loop. */
  method Schedule(c: Cohort, w: int, start: Loop, reliable: bool) returns (crashed: bool, stalled: bool, s: Loop)
    requires Good(c, w, start) && w >= 1
    ensures reliable ==> !crashed
    ensures Good(c, w, s) && Keeps(start, s)
    ensures stalled ==> exists p :: Cascade(c, p)
    ensures !crashed && !stalled ==> Converged(s)
    ensures Converged(start) ==> s == start && !crashed && !stalled
  {
    hide Good, EventsSound, Cascade;
    crashed, stalled, s := false, false, start;
    while s.pending != {} || s.active != {}
      invariant Good(c, w, s) && Keeps(start, s) && !crashed && !stalled
      invariant Converged(start) ==> s == start
      decreases c.g.Keys - s.results.Keys, !Converged(s)
    {
      ghost var top := s;
      crashed, stalled, s := OneTurn(c, w, s, reliable);
      KeepsThen(start, top, s);
      if crashed || stalled {
        return;
      }
      GoodIsSplit(c, w, s);
    }
  }

  method GatePass(c: Cohort, ghost w: int, start: Loop, reliable: bool) returns (crashed: bool, s: Loop)
    requires Gating(c, w, start.pending * c.gated, start)
    ensures reliable ==> !crashed
    ensures ValidCohort(c) && Recorded(c.g, s) && EventsSound(c, s.journal) && Keeps(start, s)
    ensures !crashed ==> s == GateAll(start.pending * c.gated, start) && Good(c, w, s)
    ensures start.pending * c.gated == {} ==> !crashed && s == start
  {
    hide Good, Recorded, EventsSound, Shape, Counted, ResultSound;
    GateAllKeeps(c, w, start.pending * c.gated, start);
    GatedIsGood(c, w, GateAll(start.pending * c.gated, start));
    var rest := start.pending * c.gated;
    s := start;
    while rest != {}
      invariant Gating(c, w, rest, s) && Keeps(start, s)
      invariant GateAll(rest, s) == GateAll(start.pending * c.gated, start)
      decreases rest
    {
      var p := Least(rest);
      GateOneKeeps(c, w, rest, p, s);
      KeepsThen(start, s, GateOne(p, s));
      s := GateOne(p, s);
      rest := rest - {p};
      crashed := Dies(reliable);
      if crashed {
        return;
      }
    }
    crashed := false;
  }

  // --- The terminal boundary ---

  /** A journal whose replay holds all results, possibly a convergence and a verification, and no completion. */
  ghost predicate Concluding(c: Cohort, record: string, j: Journal) {
    Resolved(c, record, j) && Replay(c.g.Keys, j).value.completion.None?
  }

  lemma ConcludeSnoc(c: Cohort, record: string, j: Journal, e: Event)
    requires Concluding(c, record, j)
    requires e.ConvergenceEvent? || (e.VerificationEvent? && Replay(c.g.Keys, j).value.convergence.Some?)
    ensures Concluding(c, record, j + [e])
    ensures EventsSound(c, j) ==> EventsSound(c, j + [e])
    ensures Replay(c.g.Keys, j + [e]) == ReplayOne(c.g.Keys, Replay(c.g.Keys, j).value, e)
  {
    hide ResultSound;
    RunEventAccepted(c.g.Keys, j, e);
    AcceptedSnoc(j, e);
    ReplaySnoc(c.g.Keys, j, e);
  }

  lemma CompleteSnoc(c: Cohort, record: string, j: Journal)
    requires Concluding(c, record, j)
    requires var r := Replay(c.g.Keys, j).value; r.convergence.Some? && r.verification.Some?
    ensures var r := Replay(c.g.Keys, j).value;
            var status := Status(r.results, r.convergence.value, r.verification.value);
            && Resolved(c, record, j + [CompletedEvent(status)])
            && (EventsSound(c, j) ==> EventsSound(c, j + [CompletedEvent(status)]))
            && Replay(c.g.Keys, j + [CompletedEvent(status)]) == Some(r.(completion := Some(status)))
  {
    hide ResultSound;
    var r := Replay(c.g.Keys, j).value;
    var e := CompletedEvent(Status(r.results, r.convergence.value, r.verification.value));
    RunEventAccepted(c.g.Keys, j, e);
    AcceptedSnoc(j, e);
    ReplaySnoc(c.g.Keys, j, e);
  }

  /** The result a completed journal stands for. */
  ghost predicate Stands(c: Cohort, j: Journal, result: RunResult) {
    && j != [] && Replay(c.g.Keys, j).Some?
    && var r := Replay(c.g.Keys, j).value;
       && r.completion == Some(result.status) && r.results == result.results
       && r.convergence == Some(result.convergence) && r.verification == Some(result.verification)
       && r.batches == result.batches && r.peak == result.peak
  }

  /** A completed journal stands for one result only: re-executing it returns the same one. */
  lemma StandsForOne(c: Cohort, j: Journal, a: RunResult, b: RunResult)
    requires Stands(c, j, a) && Stands(c, j, b)
    ensures a == b
  {}

  /** A result carries the retained convergence and verification, or else what the callbacks answer for it. */
  ghost predicate Answered(c: Cohort, j: Journal, converge: Converger, verify: Verifier, result: RunResult) {
    if j == [] || Replay(c.g.Keys, j).None? then
      result.convergence == converge(result.results) && result.verification == verify(result.results, result.convergence)
    else
      var r := Replay(c.g.Keys, j).value;
      && result.convergence == (if r.convergence.Some? then r.convergence.value else converge(result.results))
      && result.verification == (if r.verification.Some? then r.verification.value else verify(result.results, result.convergence))
  }

  lemma SameVerdictsAnswered(c: Cohort, j: Journal, k: Journal, converge: Converger, verify: Verifier, result: RunResult)
    requires j != [] && OnlyRunEvents(j, k) && Replay(c.g.Keys, k).Some?
    ensures Answered(c, j, converge, verify, result) == Answered(c, k, converge, verify, result)
  {
    RunEventsKeepVerdicts(c.g.Keys, j, k);
  }

  lemma {:induction false} RunEventsKeepVerdicts(ids: set<Id>, j: Journal, k: Journal)
    requires j != [] && OnlyRunEvents(j, k) && Replay(ids, k).Some?
    ensures Replay(ids, j).Some?
    ensures Replay(ids, k).value.convergence == Replay(ids, j).value.convergence
    ensures Replay(ids, k).value.verification == Replay(ids, j).value.verification
    decreases |k|
  {
    if |j| < |k| {
      var before := k[..|k| - 1];
      assert OnlyRunEvents(j, before);
      RunEventsKeepVerdicts(ids, j, before);
      assert k[|k| - 1].DispatchEvent? || k[|k| - 1].ResultEvent?;
    } else {
      assert j == k;
    }
  }

  class Runtime {
    var journal: Journal

    /** Converge, verify and complete, each at most once per run. */
    method Conclude(c: Cohort, record: string, s: Loop, converge: Converger, verify: Verifier, reliable: bool) returns (o: Outcome)
      requires Concluding(c, record, journal)
      requires var r := Replay(c.g.Keys, journal).value; r.results == s.results && r.batches == s.batches && r.peak == s.peak
      modifies this
      ensures reliable ==> !o.Crashed?
      ensures Resolved(c, record, journal) && old(journal) <= journal
      ensures EventsSound(c, old(journal)) ==> EventsSound(c, journal)
      ensures o.Crashed? || (o.Finished? && Stands(c, journal, o.result) && o.result.results == s.results
                             && Answered(c, old(journal), converge, verify, o.result))
    {
      hide Readable, EventsSound, Accepted;
      ConcludingOrder(c, record, journal);
      var r := Replay(c.g.Keys, journal).value;
      var convergence := if r.convergence.Some? then r.convergence.value else converge(s.results);
      if r.convergence.None? {
        ConcludeSnoc(c, record, journal, ConvergenceEvent(convergence));
        journal := journal + [ConvergenceEvent(convergence)];
        var crashed := Dies(reliable);
        if crashed {
          return Crashed;
        }
      }
      var verification := if r.verification.Some? then r.verification.value else verify(s.results, convergence);
      if r.verification.None? {
        ConcludeSnoc(c, record, journal, VerificationEvent(verification));
        journal := journal + [VerificationEvent(verification)];
        var crashed := Dies(reliable);
        if crashed {
          return Crashed;
        }
      }
      var status := Status(s.results, convergence, verification);
      CompleteSnoc(c, record, journal);
      journal := journal + [CompletedEvent(status)];
      o := Finished(RunResult(status, s.results, convergence, verification, s.batches, s.peak));
    }

    /**
     `execute`. Whatever workers finish when, and wherever earlier processes died, the run
     refuses nothing it wrote itself, and a finished run has the specified results. A journal
     with all results in, repaired or not, is only concluded, and a completed one is returned
     as it stands, without an append.
     */
    method Execute(c: Cohort, w: int, record: string, converge: Converger, verify: Verifier, reliable: bool) returns (o: Outcome)
      requires ValidCohort(c) && w >= 1
      requires journal == [] || RunJournal(c, record, journal) || Resolved(c, record, journal)
      modifies this
      ensures reliable ==> !o.Crashed?
      ensures old(journal) <= journal && Readable(c, record, journal)
      ensures !o.Refused?
      ensures o.Stalled? ==> exists p :: Cascade(c, p)
      ensures o.Finished? ==>
        && Stands(c, journal, o.result) && o.result.results.Keys == c.g.Keys
        && Answered(c, old(journal), converge, verify, o.result)
        && o.result.status == Status(o.result.results, o.result.convergence, o.result.verification)
      ensures old(journal) == [] || RunJournal(c, record, old(journal)) ==>
        && RunJournal(c, record, journal)
        && (o.Finished? ==> forall p | p in c.g :: Agrees(o.result.results[p], Spec(c, p)))
      ensures Resolved(c, record, old(journal)) ==>
        && Resolved(c, record, journal) && !o.Stalled?
        && (o.Finished? ==> o.result.results == Replay(c.g.Keys, old(journal)).value.results)
      ensures old(journal) != [] && Replay(c.g.Keys, old(journal)).value.completion.Some? ==> o.Finished? && journal == old(journal)
    {
      hide Good, EventsSound, Cascade, Agrees, Gating;
      if journal == [] {
        FreshJournal(c, record);
        journal := [KickoffEvent(record)];
        var crashed := Dies(reliable);
        if crashed {
          return Crashed;
        }
      }
      if journal[0] != KickoffEvent(record) || !Accepted(journal) || Replay(c.g.Keys, journal).None? {
        return Refused;
      }
      var r := Replay(c.g.Keys, journal).value;
      ReplayOrder(c.g.Keys, journal);
      if r.completion.Some? {
        if EventsSound(c, journal) { CompletedAgrees(c, journal); }
        var status := Status(r.results, r.convergence.value, r.verification.value);
        if status != r.completion.value {
          return Refused;
        }
        return Finished(RunResult(status, r.results, r.convergence.value, r.verification.value, r.batches, r.peak));
      }
      if r.results.Keys == c.g.Keys {
        if EventsSound(c, journal) { ResultsAgree(c, journal); }
        o := Conclude(c, record, Resume(c.g, journal), converge, verify, reliable);
      } else {
        o := Advance(c, w, record, converge, verify, reliable);
      }
    }

    /** `execute` from a journal that is not complete. */
    method Advance(c: Cohort, w: int, record: string, converge: Converger, verify: Verifier, reliable: bool) returns (o: Outcome)
      requires w >= 1 && RunJournal(c, record, journal) && Replay(c.g.Keys, journal).value.completion.None?
      modifies this
      ensures reliable ==> !o.Crashed?
      ensures old(journal) <= journal && RunJournal(c, record, journal)
      ensures !o.Refused?
      ensures o.Stalled? ==> exists p :: Cascade(c, p)
      ensures o.Finished? ==>
        && Stands(c, journal, o.result) && Answered(c, old(journal), converge, verify, o.result)
        && o.result.results.Keys == c.g.Keys && (forall p | p in c.g :: Agrees(o.result.results[p], Spec(c, p)))
        && o.result.status == Status(o.result.results, o.result.convergence, o.result.verification)
    {
      hide Good, EventsSound, Cascade, Agrees;
      var crashed, stalled, s := ReachConvergence(c, w, record, reliable);
      if crashed {
        return Crashed;
      }
      if stalled {
        return Stalled;
      }
      ghost var gathered := journal;
      o := Conclude(c, record, s, converge, verify, reliable);
      if o.Finished? { SameVerdictsAnswered(c, old(journal), gathered, converge, verify, o.result); }
    }

    /** Replay, gate and schedule until every package has a result. */
    method ReachConvergence(c: Cohort, w: int, record: string, reliable: bool) returns (crashed: bool, stalled: bool, s: Loop)
      requires w >= 1 && RunJournal(c, record, journal) && Replay(c.g.Keys, journal).value.completion.None?
      modifies this
      ensures reliable ==> !crashed
      ensures OnlyRunEvents(old(journal), journal) && RunJournal(c, record, journal)
      ensures stalled ==> exists p :: Cascade(c, p)
      ensures Replay(c.g.Keys, old(journal)).value.results.Keys == c.g.Keys ==> !crashed && !stalled && journal == old(journal)
      ensures !crashed && !stalled ==>
        && Concluding(c, record, journal)
        && (forall p | p in c.g :: p in s.results && Agrees(s.results[p], Spec(c, p)))
        && var r := Replay(c.g.Keys, journal).value; r.results == s.results && r.batches == s.batches && r.peak == s.peak
    {
      hide Good, EventsSound, Cascade, Agrees, Gating;
      stalled := false;
      ResumeGating(c, w, journal);
      s := Resume(c.g, journal);
      assert Replay(c.g.Keys, journal).value.results.Keys == c.g.Keys ==> s.pending == {} && s.pending * c.gated == {};
      crashed, s := GatePass(c, w, s, reliable);
      RecordedIsRunJournal(c, s, record);
      journal := s.journal;
      if crashed {
        return;
      }
      ghost var gated := s;
      crashed, stalled, s := Schedule(c, w, s, reliable);
      OnlyRunEventsThen(old(journal), gated.journal, s.journal);
      GoodIsRunJournal(c, w, s, record);
      journal := s.journal;
      if !crashed && !stalled {
        ConvergedAgrees(c, w, s);
        ConvergedConcludes(c, w, s, record);
      }
    }
  }

  lemma ConcludingOrder(c: Cohort, record: string, j: Journal)
    requires Concluding(c, record, j)
    ensures j != [] && Replay(c.g.Keys, j).Some?
    ensures Replay(c.g.Keys, j).value.verification.Some? ==> Replay(c.g.Keys, j).value.convergence.Some?
  {
    ReplayOrder(c.g.Keys, j);
  }

  lemma FreshJournal(c: Cohort, record: string)
    requires ValidCohort(c)
    ensures RunJournal(c, record, [KickoffEvent(record)])
  {
    AcceptedSnoc([], KickoffEvent(record));
  }

  lemma CompletedAgrees(c: Cohort, j: Journal)
    requires ValidCohort(c) && j != [] && Accepted(j) && EventsSound(c, j) && Replay(c.g.Keys, j).Some?
    requires Replay(c.g.Keys, j).value.completion.Some?
    ensures var r := Replay(c.g.Keys, j).value;
            r.results.Keys == c.g.Keys && forall p | p in c.g :: Agrees(r.results[p], Spec(c, p))
  {
    ReplayOrder(c.g.Keys, j);
    ResultsAgree(c, j);
  }

  lemma ResultsAgree(c: Cohort, j: Journal)
    requires ValidCohort(c) && j != [] && EventsSound(c, j) && Replay(c.g.Keys, j).Some?
    requires Replay(c.g.Keys, j).value.results.Keys == c.g.Keys
    ensures forall p | p in c.g :: Agrees(Replay(c.g.Keys, j).value.results[p], Spec(c, p))
  {
    ReplayedResultsSound(c, j);
    var r := Replay(c.g.Keys, j).value;
    forall p | p in c.g ensures Agrees(r.results[p], Spec(c, p)) { assert ResultSound(c, p, r.results[p]); }
  }

  lemma RecordedIsRunJournal(c: Cohort, s: Loop, record: string)
    requires ValidCohort(c) && Recorded(c.g, s) && EventsSound(c, s.journal) && s.journal[0] == KickoffEvent(record)
    ensures RunJournal(c, record, s.journal)
  {
    hide EventsSound;
  }

  lemma ConvergedConcludes(c: Cohort, w: int, s: Loop, record: string)
    requires Good(c, w, s) && Converged(s) && RunJournal(c, record, s.journal)
    ensures Concluding(c, record, s.journal)
    ensures var r := Replay(c.g.Keys, s.journal).value; r.results == s.results && r.batches == s.batches && r.peak == s.peak
  {
    hide EventsSound, ResultSound;
    GoodIsSplit(c, w, s);
    assert s.results.Keys == c.g.Keys;
  }
}
