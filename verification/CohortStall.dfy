/**
 When the scheduler raises "cannot make dependency or resource progress". The blocking pass
 runs once per turn and does not cascade, so a package whose only unsuccessful dependencies
 were blocked in that same pass is still pending when nothing is left to wait for.
 */
module CohortStall {
  import opened Wrappers
  import opened Identifiers
  import opened Dependencies
  import opened OutcomeGraph
  import opened CohortJournal
  import opened CohortRuntime
  import opened CohortRuns

  /** The turn that starts in `s` ends in the error. */
  ghost predicate Stalls(g: Packages, w: int, s: Loop)
    requires s.pending <= g.Keys && s.pending !! s.results.Keys
  {
    Passes(g, w, s).active == {} && Passes(g, w, s).pending != {}
  }

  /** Nothing runs or can run, and one blocking pass will not empty the pending packages. */
  ghost predicate Stuck(g: Packages, s: Loop)
    requires s.pending <= g.Keys
  {
    && s.active == {}
    && (forall p | p in s.pending :: !Ready(g, s.results, p))
    && exists p | p in s.pending :: Unsuccessful(g, s.results, p) == {}
  }

  /** Blocking changes no package's readiness. */
  lemma BlockingKeepsReadiness(g: Packages, s: Loop, rest: set<Id>, b: Loop, p: Id)
    requires BlockedMore(s, rest, b) && p in g
    ensures Ready(g, b.results, p) <==> Ready(g, s.results, p)
  {}

  lemma {:induction false} NothingReadyNothingLaunched(g: Packages, w: int, rest: set<Id>, l: Launching)
    requires rest <= g.Keys && forall p | p in rest :: !Ready(g, l.loop.results, p)
    ensures LaunchAll(g, w, rest, l) == l
    decreases rest
  {
    if rest != {} && l.loop.count < w {
      NothingReadyNothingLaunched(g, w, rest - {Least(rest)}, l);
    }
  }

  lemma IdleTurnMeansNothingReady(c: Cohort, w: int, s: Loop, p: Id)
    requires Good(c, w, s) && w >= 1 && s.pending <= c.g.Keys && s.pending !! s.results.Keys
    requires Passes(c.g, w, s).active == {} && p in s.pending
    ensures !Ready(c.g, s.results, p)
  {
    hide Good;
    BlockedGood(c, w, s);
    var b := Blocked(c.g, s);
    if p in b.pending {
      LaunchStart(c, w, b);
      IdlePassMeansNothingReady(c, w, b, b.pending, Launching(b, []), p);
      BlockingKeepsReadiness(c.g, s, Doomed(c.g, s), b, p);
    }
  }

  /** The error is raised exactly when the state at the top of the turn is stuck. */
  lemma StallsExactlyWhenStuck(c: Cohort, w: int, s: Loop)
    requires Good(c, w, s) && w >= 1
    ensures s.pending <= c.g.Keys && s.pending !! s.results.Keys
    ensures Stalls(c.g, w, s) <==> Stuck(c.g, s)
  {
    hide Good;
    BlockedGood(c, w, s);
    PassesGood(c, w, s);
    var b, t := Blocked(c.g, s), Passes(c.g, w, s);
    if Stalls(c.g, w, s) {
      forall p | p in s.pending ensures !Ready(c.g, s.results, p) { IdleTurnMeansNothingReady(c, w, s, p); }
      var p :| p in t.pending;
      assert p in s.pending && p !in Doomed(c.g, s);
    }
    if Stuck(c.g, s) {
      forall p | p in b.pending ensures !Ready(c.g, b.results, p) {
        BlockingKeepsReadiness(c.g, s, Doomed(c.g, s), b, p);
      }
      NothingReadyNothingLaunched(c.g, w, b.pending, Launching(b, []));
      var p :| p in s.pending && Unsuccessful(c.g, s.results, p) == {};
      assert p in b.pending;
    }
  }

  // --- Which cohorts can stall ---

  ghost predicate DependencyBlocked(c: Cohort, p: Id)
    requires ValidCohort(c) && p in c.g
  {
    p !in c.gated && exists d | d in SpecDependencies(c, p) :: !SpecDependencies(c, p)[d].state.Succeeded?
  }

  /** Blocked, and only by packages that are themselves dependency-blocked. */
  ghost predicate Cascade(c: Cohort, p: Id)
    requires ValidCohort(c)
  {
    && p in c.g && DependencyBlocked(c, p)
    && forall d | d in c.g[p].deps :: d in c.g && (Spec(c, d).state.Succeeded? || DependencyBlocked(c, d))
  }

  lemma DoomedIsDependencyBlocked(c: Cohort, s: Loop, p: Id)
    requires Sound(c, s) && p in c.g && p in s.pending && Unsuccessful(c.g, s.results, p) != {}
    ensures DependencyBlocked(c, p)
  {
    var d :| d in Unsuccessful(c.g, s.results, p);
    assert ResultSound(c, d, s.results[d]);
    assert !SpecDependencies(c, p)[d].state.Succeeded?;
  }

  /** The pending package of least rank in a stalled state: all it needs is recorded. */
  lemma StalledLeast(c: Cohort, w: int, s: Loop) returns (m: Id)
    requires Good(c, w, s) && w >= 1 && s.pending <= c.g.Keys && s.pending !! s.results.Keys && Stalls(c.g, w, s)
    ensures var t := Passes(c.g, w, s);
            && m in t.pending && m in s.pending && m in c.g && c.g[m].deps <= t.results.Keys
            && t.results == Blocked(c.g, s).results && !Ready(c.g, t.results, m)
            && Unsuccessful(c.g, s.results, m) == {}
  {
    var t := Passes(c.g, w, s);
    PassesGood(c, w, s);
    BlockedGood(c, w, s);
    m := LeastRank(t.pending, c.rank);
    LeastNeedsRecorded(c, w, t, m);
    IdleTurnMeansNothingReady(c, w, s, m);
    BlockingKeepsReadiness(c.g, s, Doomed(c.g, s), Blocked(c.g, s), m);
  }

  lemma LeastNeedsRecorded(c: Cohort, w: int, t: Loop, m: Id)
    requires Good(c, w, t) && t.active == {} && m in t.pending && forall x | x in t.pending :: c.rank[m] <= c.rank[x]
    ensures m in c.g && c.g[m].deps <= t.results.Keys
  {
    forall d | d in c.g[m].deps ensures d in t.results {
      assert d in DepsOf(c.g)[m] && c.rank[d] < c.rank[m];
    }
  }

  /** A stall needs a cascade: without one the error is unreachable, whatever the schedule. */
  lemma StallNeedsCascade(c: Cohort, w: int, s: Loop)
    requires Good(c, w, s) && w >= 1
    ensures s.pending <= c.g.Keys && s.pending !! s.results.Keys
    ensures Stalls(c.g, w, s) ==> exists p :: Cascade(c, p)
  {
    BlockedGood(c, w, s);
    if Stalls(c.g, w, s) {
      var m := StalledLeast(c, w, s);
      var b := Blocked(c.g, s);
      forall d | d in c.g[m].deps ensures d in c.g && (Spec(c, d).state.Succeeded? || DependencyBlocked(c, d)) {
        assert d in b.results;
        assert d in s.results || d in Doomed(c.g, s);
        if d in s.results {
          assert d !in Unsuccessful(c.g, s.results, m);
          assert ResultSound(c, d, s.results[d]);
        } else {
          DoomedIsDependencyBlocked(c, s, d);
        }
      }
      StalledIsBlocked(c, w, s, m);
      assert Cascade(c, m);
    }
  }

  lemma StalledIsBlocked(c: Cohort, w: int, s: Loop, m: Id)
    requires s.pending <= c.g.Keys && s.pending !! s.results.Keys && Good(c, w, Blocked(c.g, s)) && Good(c, w, s)
    requires m in s.pending && m in c.g && c.g[m].deps <= Blocked(c.g, s).results.Keys
    requires !Ready(c.g, Blocked(c.g, s).results, m)
    ensures DependencyBlocked(c, m)
  {
    var b := Blocked(c.g, s);
    var d :| d in c.g[m].deps && !(d in b.results && b.results[d].state.Succeeded?);
    assert ResultSound(c, d, b.results[d]);
    assert !SpecDependencies(c, m)[d].state.Succeeded?;
  }

  lemma SpecDependencyIsSpec(c: Cohort, p: Id, d: Id)
    requires ValidCohort(c) && p in c.g && d in c.g[p].deps
    ensures d in c.g && SpecDependencies(c, p)[d] == Spec(c, d)
  {
    assert d in DepsOf(c.g)[p];
  }

  /** If every package succeeds there is no cascade. */
  lemma AllSucceedNoCascade(c: Cohort)
    requires ValidCohort(c) && forall p | p in c.g :: Spec(c, p).state.Succeeded?
    ensures forall p :: !Cascade(c, p)
  {
    forall p | p in c.g ensures !DependencyBlocked(c, p) {
      forall d | d in c.g[p].deps ensures SpecDependencies(c, p)[d].state.Succeeded? { SpecDependencyIsSpec(c, p, d); }
    }
  }

  /** Every turn of a run records a result, so a run has at most as many turns as packages. */
  lemma {:induction false} RunsAreShort(c: Cohort, w: int, s: Loop, orders: seq<seq<Id>>)
    requires Good(c, w, s) && RunTurns(c, w, s, orders).Some?
    ensures |orders| + |s.results.Keys| <= |RunTurns(c, w, s, orders).value.results.Keys| <= |c.g.Keys|
  {
    hide Good;
    RunTurnsGood(c, w, s, orders);
    ResultsKnown(c, w, RunTurns(c, w, s, orders).value);
    if orders != [] {
      var before, order := orders[..|orders| - 1], orders[|orders| - 1];
      RunsAreShort(c, w, s, before);
      var t := RunTurns(c, w, s, before).value;
      RunTurnsGood(c, w, s, before);
      TurnGood(c, w, t, order);
      PassesGood(c, w, t);
      FinishedIsNew(c, w, t, order);
      ProperSubsetCardinality(t.results.Keys, Turn(c, w, t, order).results.Keys, order[|order| - 1]);
    }
  }

  lemma ResultsKnown(c: Cohort, w: int, s: Loop)
    requires Good(c, w, s)
    ensures s.results.Keys <= c.g.Keys && |s.results.Keys| <= |c.g.Keys|
  {
    SubsetCardinality(s.results.Keys, c.g.Keys);
  }

  lemma FinishedIsNew(c: Cohort, w: int, t: Loop, order: seq<Id>)
    requires t.pending <= c.g.Keys && t.pending !! t.results.Keys && Good(c, w, t)
    requires order != [] && CanFinish(c, order, Passes(c.g, w, t))
    ensures order[|order| - 1] in Elements(order) && order[|order| - 1] !in t.results
  {
    hide Good;
    PassesGood(c, w, t);
    BlockedGood(c, w, t);
    var q := Passes(c.g, w, t);
    GoodIsDisjoint(c, w, q);
    assert order[|order| - 1] in Elements(order);
  }

  lemma GoodIsDisjoint(c: Cohort, w: int, s: Loop)
    requires Good(c, w, s)
    ensures s.active !! s.results.Keys
  {}

  lemma ProperSubsetCardinality(a: set<Id>, b: set<Id>, x: Id)
    requires a <= b && x in b && x !in a
    ensures |a| + 1 <= |b|
  {
    SubsetCardinality(a, b - {x});
  }

  /**
   Without a cascade no turn raises: it either waits for a running package or has converged.
   With `RunsAreShort`, every run then converges, whatever finishes when.
   */
  lemma NoCascadeProgresses(c: Cohort, record: string, attempts: seq<Attempt>, w: nat, orders: seq<seq<Id>>)
    requires ValidCohort(c) && w >= 1 && (forall p :: !Cascade(c, p))
    requires AfterAttempts(c, record, attempts).Some?
    ensures SoundJournal(c, AfterAttempts(c, record, attempts).value)
    ensures var t := RunTurns(c, w, Begin(c, AfterAttempts(c, record, attempts).value), orders);
            t.Some? ==>
              && t.value.pending <= c.g.Keys && t.value.pending !! t.value.results.Keys
              && (Passes(c.g, w, t.value).active != {} || Converged(Passes(c.g, w, t.value)))
  {
    AttemptsKeepJournalSound(c, record, attempts);
    var j := AfterAttempts(c, record, attempts).value;
    BeginGood(c, w, j);
    var t := RunTurns(c, w, Begin(c, j), orders);
    if t.Some? {
      RunTurnsGood(c, w, Begin(c, j), orders);
      StallNeedsCascade(c, w, t.value);
    }
  }

  /** After the error, resuming from the journal blocks at least one package more. */
  lemma ResumeAfterStallProgresses(c: Cohort, w: int, s: Loop)
    requires Good(c, w, s) && w >= 1
    ensures s.pending <= c.g.Keys && s.pending !! s.results.Keys
    ensures var t := Passes(c.g, w, s);
            Stalls(c.g, w, s) ==>
              && SoundJournal(c, t.journal)
              && var again := Begin(c, t.journal);
                 && again.pending <= c.g.Keys && again.pending !! again.results.Keys
                 && t.results.Keys < Blocked(c.g, again).results.Keys
  {
    BlockedGood(c, w, s);
    if Stalls(c.g, w, s) {
      var t := Passes(c.g, w, s);
      PassesGood(c, w, s);
      GoodJournalIsSound(c, w, t);
      var m := StalledLeast(c, w, s);
      BeginGood(c, w, t.journal);
      var again := Begin(c, t.journal);
      BlockedGood(c, w, again);
      ResumedIsSame(c, w, t);
      UnreadyIsDoomed(c.g, t.results, m);
      assert m in Doomed(c.g, again);
    }
  }

  lemma UnreadyIsDoomed(g: Packages, results: map<Id, PackageResult>, m: Id)
    requires m in g && g[m].deps <= results.Keys && !Ready(g, results, m)
    ensures Unsuccessful(g, results, m) != {}
  {
    var d :| d in g[m].deps && !(d in results && results[d].state.Succeeded?);
    assert d in Unsuccessful(g, results, m);
  }

  /** Resuming the journal of an idle state gives back its results and its pending packages. */
  lemma ResumedIsSame(c: Cohort, w: int, t: Loop)
    requires Good(c, w, t) && t.active == {} && SoundJournal(c, t.journal)
    ensures Begin(c, t.journal).results == t.results && Begin(c, t.journal).pending == t.pending
  {
    var s := Resume(c.g, t.journal);
    assert s.pending == t.pending;
    assert s.pending * c.gated == {};
  }

  // --- The error is reachable ---

  /** B needs A, C needs B, and A fails when executed. */
  function FailingChain(): Cohort {
    var g := map["A" := Package({}, {}, {}), "B" := Package({"A"}, {}, {}), "C" := Package({"B"}, {}, {})];
    Cohort(g, map["A" := 0, "B" := 1, "C" := 2], {}, (p, deps) => PackageResult(Failed, "", [], ""))
  }

  lemma FailingChainIsValid()
    ensures ValidCohort(FailingChain()) && SoundJournal(FailingChain(), [KickoffEvent("")])
  {
    var c := FailingChain();
    assert c.g.Keys == {"A", "B", "C"};
    assert DepsOf(c.g)["A"] == {} && DepsOf(c.g)["B"] == {"A"} && DepsOf(c.g)["C"] == {"B"};
    AcceptedSnoc([], KickoffEvent(""));
  }

  /** A fresh run whose only package without dependencies is `a` runs `a` first, alone. */
  lemma FirstTurnRunsRoot(c: Cohort, w: int, s: Loop, a: Id)
    requires Good(c, w, s) && w >= 1 && s.results == map[] && s.active == {}
    requires a in s.pending && a in c.g && c.g[a].deps == {}
    requires forall p | p in c.g && p != a :: c.g[p].deps != {}
    ensures s.pending <= c.g.Keys && s.pending !! s.results.Keys
    ensures Passes(c.g, w, s).active == {a} && Passes(c.g, w, s).pending == s.pending - {a} && Passes(c.g, w, s).results == map[]
  {
    hide Good, Passes, Blocked;
    BlockedGood(c, w, s);
    PassesGood(c, w, s);
    var t := Passes(c.g, w, s);
    assert Doomed(c.g, s) == {};
    assert t.results == map[] by { assert t.results.Keys == {}; }
    if t.active == {} { IdleTurnMeansNothingReady(c, w, s, a); }
    forall p | p in t.active ensures p == a { GoodIsReady(c, w, p, t); }
    assert t.active == {a};
    GoodIsSplit(c, w, t);
  }

  lemma GoodIsReady(c: Cohort, w: int, p: Id, s: Loop)
    requires Good(c, w, s) && p in s.active
    ensures p in c.g && Ready(c.g, s.results, p)
  {
    ActiveIsReady(c.g, w, p, s);
  }

  lemma GoodIsSplit(c: Cohort, w: int, s: Loop)
    requires Good(c, w, s)
    ensures s.pending !! s.active && s.pending + s.results.Keys + s.active == c.g.Keys
  {}

  /** Then `a` fails: a package that does not need `a` itself is left behind by the one blocking pass. */
  lemma RootFailureIsStuck(c: Cohort, w: int, t: Loop, a: Id, z: Id)
    requires Good(c, w, t) && t.active == {} && t.results.Keys == {a} && !t.results[a].state.Succeeded?
    requires t.pending <= c.g.Keys && z in t.pending && a !in c.g[z].deps
    requires forall p | p in t.pending :: c.g[p].deps != {}
    ensures Stuck(c.g, t)
  {
    hide Good;
    assert Unsuccessful(c.g, t.results, z) == {};
    forall p | p in t.pending ensures !Ready(c.g, t.results, p) {
      var d :| d in c.g[p].deps;
      assert d in t.results && t.results[d].state.Succeeded? ==> d == a;
    }
  }

  lemma RootFails(c: Cohort, w: int, t: Loop, a: Id)
    requires Good(c, w, t) && a in t.results && a in c.g && a !in c.gated && c.g[a].deps == {}
    requires !c.exec(a, map[]).state.Succeeded?
    ensures !t.results[a].state.Succeeded?
  {
    hide Shape, Recorded, Counted, EventsSound;
    assert ResultSound(c, a, t.results[a]);
    assert SpecDependencies(c, a) == map[];
  }

  /** In the first turn only A runs; it fails; the second turn raises with C still pending. */
  lemma FailingChainStalls(w: nat)
    requires w >= 1
    ensures ValidCohort(FailingChain()) && SoundJournal(FailingChain(), [KickoffEvent("")])
    ensures var c := FailingChain();
            var t := RunTurns(c, w, Begin(c, [KickoffEvent("")]), [["A"]]);
            && t.Some? && t.value.pending <= c.g.Keys && t.value.pending !! t.value.results.Keys
            && Stalls(c.g, w, t.value)
  {
    hide Good, SoundJournal, Passes, Stalls, RunTurns;
    var c, j := FailingChain(), [KickoffEvent("")];
    FailingChainIsValid();
    FreshBegin(c, w, "");
    ChainStalls(c, w, Begin(c, j), "A", "C");
  }

  lemma FreshBegin(c: Cohort, w: int, record: string)
    requires SoundJournal(c, [KickoffEvent(record)]) && c.gated == {} && w >= 0
    ensures var s := Begin(c, [KickoffEvent(record)]);
            Good(c, w, s) && s.pending == c.g.Keys && s.results == map[] && s.active == {}
  {
    hide Good, SoundJournal;
    BeginGood(c, w, [KickoffEvent(record)]);
  }

  lemma ChainStalls(c: Cohort, w: int, s: Loop, a: Id, z: Id)
    requires Good(c, w, s) && w >= 1 && s.pending == c.g.Keys && s.results == map[] && s.active == {}
    requires a in c.g && c.g[a].deps == {} && a !in c.gated && !c.exec(a, map[]).state.Succeeded?
    requires forall p | p in c.g && p != a :: c.g[p].deps != {}
    requires z in c.g && z != a && a !in c.g[z].deps
    ensures var t := RunTurns(c, w, s, [[a]]);
            && t.Some? && t.value.pending <= c.g.Keys && t.value.pending !! t.value.results.Keys
            && Stalls(c.g, w, t.value)
  {
    hide Good, Passes, Stalls;
    FirstTurnRunsRoot(c, w, s, a);
    var order := [a];
    assert Elements(order) == {a};
    TurnGood(c, w, s, order);
    PassesGood(c, w, s);
    FinishAllGood(c, w, order, Passes(c.g, w, s));
    var t := Turn(c, w, s, order);
    assert [order][..0] == [];
    assert RunTurns(c, w, s, [order]) == Some(t);
    RootFails(c, w, t, a);
    RootFailureIsStuck(c, w, t, a, z);
    StallsExactlyWhenStuck(c, w, t);
  }
}
