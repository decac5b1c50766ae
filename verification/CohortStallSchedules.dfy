/**
 Which cohorts can raise the "cannot make progress" error when there is room for every package.
 Packages execute in levels, one more each turn at best; what a policy gate blocks spreads by one
 step each turn whatever happens. A schedule that raises must execute everything before the gates
 have blocked the rest, and holding back what fails until then is enough.
 */
module CohortStallSchedules {
  import opened Wrappers
  import opened Identifiers
  import opened OutcomeGraph
  import opened CohortJournal
  import opened CohortRuntime
  import opened CohortRuns
  import opened CohortStall

  // --- Room ---

  /** A worker for every package, and nothing to wait for but dependencies. */
  ghost predicate Roomy(c: Cohort, w: int) {
    && |c.g.Keys| <= w
    && forall p, q | p in c.g && q in c.g && p != q :: c.g[p].paths !! c.g[q].paths && c.g[p].locks !! c.g[q].locks
  }

  lemma RoomToFit(c: Cohort, w: int, s: Loop, q: Id)
    requires Roomy(c, w) && s.active <= c.g.Keys && Exclusive(c.g, s) && q in c.g && q !in s.active
    ensures Fits(c.g, s, q)
  {
    forall x | x in s.paths ensures x !in c.g[q].paths {
      var p :| p in s.active && x in c.g[p].paths;
    }
    forall x | x in s.locks ensures x !in c.g[q].locks {
      var p :| p in s.active && x in c.g[p].locks;
    }
  }

  lemma RoomForOne(c: Cohort, w: int, s: Loop, q: Id)
    requires Roomy(c, w) && Shape(c.g, w, s) && Counted(s) && q in s.pending
    ensures q in c.g && s.count < w && Fits(c.g, s, q)
  {
    hide Fits, Exclusive, Ready;
    RoomToFit(c, w, s, q);
    ProperSubsetCardinality(s.active, c.g.Keys, q);
  }

  /** A roomy pass launches everything that is ready. */
  lemma {:induction false} RoomyLaunches(c: Cohort, w: int, before: Loop, rest: set<Id>, l: Launching, q: Id)
    requires Roomy(c, w) && Launchable(c, w, before, rest, l) && rest <= c.g.Keys
    requires q in rest && Ready(c.g, l.loop.results, q)
    ensures q in LaunchAll(c.g, w, rest, l).loop.active
    decreases rest
  {
    hide Shape, Counted, Sound, Announcing, Roomy, Fits, Ready;
    RoomForOne(c, w, l.loop, q);
    var p := Least(rest);
    LaunchTurnKeeps(c, w, before, rest, p, l);
    LaunchAllKeeps(c, w, before, rest - {p}, LaunchTurn(c.g, p, l));
    if q != p { RoomyLaunches(c, w, before, rest - {p}, LaunchTurn(c.g, p, l), q); }
  }

  lemma RoomyPasses(c: Cohort, w: int, s: Loop, q: Id)
    requires Roomy(c, w) && Good(c, w, s) && s.pending <= c.g.Keys && s.pending !! s.results.Keys
    requires q in Blocked(c.g, s).pending && q in c.g && Ready(c.g, Blocked(c.g, s).results, q)
    ensures q in Passes(c.g, w, s).active
  {
    hide Good, Roomy, Ready, Launchable, LaunchAll, Blocked;
    BlockedGood(c, w, s);
    var b := Blocked(c.g, s);
    LaunchStart(c, w, b);
    RoomyLaunches(c, w, b, b.pending, Launching(b, []), q);
  }

  // --- What becomes of a package, and when ---

  /** The packages that are executed, in every schedule that gets to them. */
  ghost function Executed(c: Cohort): set<Id>
    requires ValidCohort(c)
  {
    set p | p in c.g && p !in c.gated && !DependencyBlocked(c, p)
  }

  ghost function Successful(c: Cohort): set<Id>
    requires ValidCohort(c)
  {
    set p | p in c.g && Spec(c, p).state.Succeeded?
  }

  /** The packages that can have been executed after `k` turns. */
  ghost function Level(c: Cohort, k: nat): set<Id>
    requires ValidCohort(c)
  {
    if k == 0 then {} else set p | p in Executed(c) && p in c.g && c.g[p].deps <= Level(c, k - 1)
  }

  /** The packages that the gates have blocked after `k` turns. */
  ghost function Gates(c: Cohort, k: nat): set<Id>
    requires ValidCohort(c)
  {
    if k == 0 then c.gated
    else set p | p in c.g && (p in c.gated || (DependencyBlocked(c, p) && c.g[p].deps * Gates(c, k - 1) != {}))
  }

  lemma SuccessfulIsExecuted(c: Cohort)
    requires ValidCohort(c)
    ensures Successful(c) <= Executed(c)
  {}

  lemma ExecutedOnSuccess(c: Cohort, p: Id)
    requires ValidCohort(c) && p in Executed(c)
    ensures p in c.g && c.g[p].deps <= Successful(c)
  {
    forall d | d in c.g[p].deps ensures d in Successful(c) {
      SpecDependencyIsSpec(c, p, d);
      assert d in SpecDependencies(c, p);
    }
  }

  lemma BlockedNeedsFailure(c: Cohort, p: Id) returns (d: Id)
    requires ValidCohort(c) && p in c.g && DependencyBlocked(c, p)
    ensures d in c.g[p].deps && d in c.g && d !in Successful(c)
  {
    d :| d in SpecDependencies(c, p) && !SpecDependencies(c, p)[d].state.Succeeded?;
    SpecDependencyIsSpec(c, p, d);
  }

  lemma {:induction false} LevelGrows(c: Cohort, k: nat)
    requires ValidCohort(c)
    ensures Level(c, k) <= Level(c, k + 1)
  {
    hide Executed;
    if k > 0 { LevelGrows(c, k - 1); }
  }

  lemma {:induction false} LevelGrowsTo(c: Cohort, i: nat, k: nat)
    requires ValidCohort(c) && i <= k
    ensures Level(c, i) <= Level(c, k)
    decreases k - i
  {
    hide Level;
    if i < k {
      LevelGrows(c, i);
      LevelGrowsTo(c, i + 1, k);
    }
  }

  lemma {:induction false} GatesGrow(c: Cohort, k: nat)
    requires ValidCohort(c)
    ensures Gates(c, k) <= Gates(c, k + 1)
  {
    hide DependencyBlocked;
    if k > 0 {
      GatesGrow(c, k - 1);
      forall p | p in Gates(c, k) ensures p in Gates(c, k + 1) {
        if p !in c.gated {
          var d :| d in c.g[p].deps * Gates(c, k - 1);
          assert d in c.g[p].deps * Gates(c, k);
        }
      }
    }
  }

  lemma {:induction false} GatesGrowTo(c: Cohort, i: nat, k: nat)
    requires ValidCohort(c) && i <= k
    ensures Gates(c, i) <= Gates(c, k)
    decreases k - i
  {
    hide Gates;
    if i < k {
      GatesGrow(c, i);
      GatesGrowTo(c, i + 1, k);
    }
  }

  lemma GatesAreNotExecuted(c: Cohort, k: nat)
    requires ValidCohort(c)
    ensures Gates(c, k) !! Executed(c) && c.gated <= Gates(c, k) <= c.g.Keys
  {
    hide DependencyBlocked;
  }

  /** If a level adds no success, it holds everything that is executed. */
  lemma {:induction false} LevelsEnd(c: Cohort, k: nat, p: Id)
    requires ValidCohort(c) && Level(c, k + 1) * Successful(c) <= Level(c, k) && p in Executed(c)
    ensures p in Level(c, k + 1)
    decreases c.rank[p]
  {
    ExecutedIsKnown(c);
    ExecutedOnSuccess(c, p);
    SuccessfulIsExecuted(c);
    hide Executed, Successful;
    forall d | d in c.g[p].deps ensures d in Level(c, k) {
      assert d in DepsOf(c.g)[p] && c.rank[d] < c.rank[p];
      LevelsEnd(c, k, d);
    }
  }

  lemma ExecutedIsKnown(c: Cohort)
    requires ValidCohort(c)
    ensures Executed(c) <= c.g.Keys <= c.rank.Keys
  {}

  /** A package that could be launched is not dependency-blocked, and has its specified result. */
  lemma ReadyIsExecuted(c: Cohort, s: Loop, q: Id)
    requires Sound(c, s) && q in c.g && q !in c.gated && Ready(c.g, s.results, q)
    ensures !DependencyBlocked(c, q) && Spec(c, q) == c.exec(q, DependencyResults(c.g, s.results, q))
  {
    ReadyMeansSpec(c, q, s);
    forall d | d in c.g[q].deps ensures SpecDependencies(c, q)[d].state.Succeeded? {
      SpecDependencyIsSpec(c, q, d);
      assert ResultSound(c, d, s.results[d]);
    }
  }

  lemma GoodIsSound(c: Cohort, w: int, s: Loop)
    requires Good(c, w, s)
    ensures Sound(c, s)
  {}

  lemma GoodAgrees(c: Cohort, w: int, s: Loop, p: Id)
    requires Good(c, w, s) && p in s.results
    ensures ValidCohort(c) && p in c.g && s.results[p].state == Spec(c, p).state
  {
    assert ResultSound(c, p, s.results[p]);
  }

  // --- Runs, turn by turn ---

  /** After `k` turns nothing is executed ahead of its level, and the gates have spread `k` steps. */
  ghost predicate Paced(c: Cohort, k: nat, s: Loop)
    requires ValidCohort(c)
  {
    s.results.Keys * Executed(c) <= Level(c, k) && Gates(c, k) <= s.results.Keys
  }

  lemma GatesAreUnsuccessful(c: Cohort, k: nat, w: int, s: Loop, d: Id)
    requires ValidCohort(c) && Good(c, w, s) && d in Gates(c, k) && d in s.results
    ensures !s.results[d].state.Succeeded?
  {
    hide Good, Gates;
    GoodAgrees(c, w, s, d);
    GatesAreNotExecuted(c, k);
    SuccessfulIsExecuted(c);
    assert d !in Successful(c);
  }

  /** What a turn executes was ready on results from before it. */
  lemma TurnStaysInLevel(c: Cohort, w: int, k: nat, s: Loop, p: Id)
    requires ValidCohort(c) && Good(c, w, s) && Paced(c, k, s) && s.pending <= c.g.Keys && s.pending !! s.results.Keys
    requires p in Passes(c.g, w, s).active && p in Executed(c)
    ensures p in Level(c, k + 1)
  {
    hide Good, Passes, Blocked, Executed;
    PassesGood(c, w, s);
    BlockedGood(c, w, s);
    var t := Passes(c.g, w, s);
    GoodIsReady(c, w, p, t);
    ExecutedOnSuccess(c, p);
    SuccessfulIsExecuted(c);
    forall d | d in c.g[p].deps ensures d in Level(c, k) {
      assert d in s.results;
    }
  }

  lemma TurnSpreadsGates(c: Cohort, w: int, k: nat, s: Loop, p: Id)
    requires ValidCohort(c) && Good(c, w, s) && Paced(c, k, s) && s.pending <= c.g.Keys && s.pending !! s.results.Keys
    requires p in Gates(c, k + 1)
    ensures p in Passes(c.g, w, s).results
  {
    hide Good, Passes, Blocked, DependencyBlocked;
    PassesGood(c, w, s);
    BlockedGood(c, w, s);
    GatesAreNotExecuted(c, k);
    GoodIsSplit(c, w, s);
    if p !in s.results {
      var d :| d in c.g[p].deps * Gates(c, k);
      GatesAreUnsuccessful(c, k, w, s, d);
      if p in s.active { GoodIsReady(c, w, p, s); }
      assert d in Unsuccessful(c.g, s.results, p);
    }
  }

  lemma TurnPaced(c: Cohort, w: int, k: nat, s: Loop, order: seq<Id>)
    requires ValidCohort(c) && Good(c, w, s) && Paced(c, k, s) && s.pending <= c.g.Keys && s.pending !! s.results.Keys
    requires CanFinish(c, order, Passes(c.g, w, s))
    ensures Paced(c, k + 1, Turn(c, w, s, order))
  {
    hide Good, Passes, Blocked, Level, Gates, Executed, FinishAll;
    PassesGood(c, w, s);
    BlockedGood(c, w, s);
    var t, u := Passes(c.g, w, s), Turn(c, w, s, order);
    FinishAllGood(c, w, order, t);
    forall p | p in u.results && p in Executed(c) ensures p in Level(c, k + 1) {
      LevelGrows(c, k);
      if p in Elements(order) {
        TurnStaysInLevel(c, w, k, s, p);
      } else if p !in s.results {
        DoomedIsNotExecuted(c, w, s, p);
      }
    }
    forall p | p in Gates(c, k + 1) ensures p in u.results { TurnSpreadsGates(c, w, k, s, p); }
  }

  lemma DoomedIsNotExecuted(c: Cohort, w: int, s: Loop, p: Id)
    requires Good(c, w, s) && s.pending <= c.g.Keys && p in Doomed(c.g, s)
    ensures ValidCohort(c) && p !in Executed(c)
  {
    GoodIsSound(c, w, s);
    hide Good;
    DoomedIsDependencyBlocked(c, s, p);
  }

  lemma {:induction false} RunPaced(c: Cohort, w: int, s: Loop, orders: seq<seq<Id>>)
    requires ValidCohort(c) && Good(c, w, s) && Paced(c, 0, s) && RunTurns(c, w, s, orders).Some?
    ensures Paced(c, |orders|, RunTurns(c, w, s, orders).value)
    decreases |orders|
  {
    hide Good, Passes, Paced, Turn, CanFinish;
    if orders != [] {
      var before := orders[..|orders| - 1];
      RunPaced(c, w, s, before);
      RunTurnsGood(c, w, s, before);
      TurnPaced(c, w, |before|, RunTurns(c, w, s, before).value, orders[|orders| - 1]);
    }
  }

  // --- The condition ---

  /** After `k` turns everything can be executed, `p` has failed no one directly, and the gates have not reached it. */
  ghost predicate Outlasts(c: Cohort, k: nat, p: Id)
    requires ValidCohort(c)
  {
    && Executed(c) <= Level(c, k)
    && p in c.g && DependencyBlocked(c, p) && p !in Gates(c, k + 1)
    && forall d | d in c.g[p].deps && d in Executed(c) :: d in Successful(c)
  }

  /** In a stuck state everything that is executed has been. */
  lemma {:induction false} StuckHasExecuted(c: Cohort, w: int, t: Loop, p: Id)
    requires Good(c, w, t) && ValidCohort(c) && t.pending <= c.g.Keys && CohortStall.Stuck(c.g, t) && p in Executed(c)
    ensures p in t.results
    decreases c.rank[p]
  {
    ExecutedIsKnown(c);
    ExecutedOnSuccess(c, p);
    SuccessfulIsExecuted(c);
    hide Good, Executed, Successful;
    GoodIsSplit(c, w, t);
    forall d | d in c.g[p].deps ensures d in t.results && t.results[d].state.Succeeded? {
      assert d in DepsOf(c.g)[p] && c.rank[d] < c.rank[p];
      StuckHasExecuted(c, w, t, d);
      GoodAgrees(c, w, t, d);
      SuccessfulSucceeds(c, d);
    }
    assert Ready(c.g, t.results, p);
  }

  lemma SuccessfulSucceeds(c: Cohort, d: Id)
    requires ValidCohort(c) && d in c.g
    ensures d in Successful(c) <==> Spec(c, d).state.Succeeded?
  {}

  lemma StallOutlasts(c: Cohort, w: int, k: nat, t: Loop) returns (p: Id)
    requires Good(c, w, t) && w >= 1 && ValidCohort(c) && Paced(c, k, t)
    requires t.pending <= c.g.Keys && t.pending !! t.results.Keys && Stalls(c.g, w, t)
    ensures Outlasts(c, k, p)
  {
    hide Good, Passes, Blocked, Executed, Successful, Gates, Level;
    StallsExactlyWhenStuck(c, w, t);
    forall q | q in Executed(c) ensures q in t.results && q in Level(c, k) { StuckHasExecuted(c, w, t, q); }
    p := StalledLeast(c, w, t);
    BlockedGood(c, w, t);
    StalledIsBlocked(c, w, t, p);
    forall d | d in c.g[p].deps && d in Executed(c) ensures d in Successful(c) {
      GoodAgrees(c, w, t, d);
      SuccessfulSucceeds(c, d);
      assert d !in Unsuccessful(c.g, t.results, p);
    }
    GatesMissPending(c, w, k, t, p);
  }

  lemma GatedDependency(c: Cohort, k: nat, w: int, s: Loop, p: Id, d: Id)
    requires ValidCohort(c) && Good(c, w, s) && p in c.g && d in c.g[p].deps && d in Gates(c, k) && d in s.results
    ensures Unsuccessful(c.g, s.results, p) != {}
  {
    hide Good, Gates;
    GatesAreUnsuccessful(c, k, w, s, d);
    assert d in Unsuccessful(c.g, s.results, p);
  }

  lemma GatesMissPending(c: Cohort, w: int, k: nat, t: Loop, p: Id)
    requires Good(c, w, t) && ValidCohort(c) && Paced(c, k, t) && p in t.pending && p in c.g
    requires t.pending !! t.results.Keys && Unsuccessful(c.g, t.results, p) == {}
    ensures p !in Gates(c, k + 1)
  {
    hide Good;
    GatesAreNotExecuted(c, k);
    forall d | d in c.g[p].deps ensures d !in Gates(c, k) {
      if d in Gates(c, k) { GatedDependency(c, k, w, t, p, d); }
    }
  }

  // --- The schedule: in step, with everything that fails held back to the end ---

  /** After `i` turns in step: the successes of the level and what the gates have blocked; failures still run. */
  ghost predicate InStep(c: Cohort, w: int, i: nat, s: Loop)
    requires ValidCohort(c)
  {
    && Good(c, w, s)
    && s.results.Keys == Successful(c) * Level(c, i) + Gates(c, i)
    && s.active == Level(c, i) - Successful(c)
  }

  lemma DoomedIsGated(c: Cohort, w: int, i: nat, s: Loop, p: Id)
    requires ValidCohort(c) && InStep(c, w, i, s) && s.pending <= c.g.Keys && p in Doomed(c.g, s)
    ensures p in Gates(c, i + 1)
  {
    GoodIsSound(c, w, s);
    hide Good, Level, DependencyBlocked, Successful;
    DoomedIsDependencyBlocked(c, s, p);
    var d :| d in Unsuccessful(c.g, s.results, p);
    GoodAgrees(c, w, s, d);
    SuccessfulSucceeds(c, d);
    assert d in c.g[p].deps * Gates(c, i);
  }

  lemma GatedIsDoomed(c: Cohort, w: int, i: nat, s: Loop, p: Id)
    requires ValidCohort(c) && InStep(c, w, i, s) && s.pending <= c.g.Keys && p in Gates(c, i + 1) && p !in s.results
    ensures p in Doomed(c.g, s)
  {
    GoodIsSplit(c, w, s);
    GatesAreNotExecuted(c, i);
    GatesAreNotExecuted(c, i + 1);
    LevelIsExecuted(c, i);
    hide Good, Level, DependencyBlocked, Executed, Successful;
    var d :| d in c.g[p].deps * Gates(c, i);
    GatedDependency(c, i, w, s, p, d);
  }

  lemma InStepDoomed(c: Cohort, w: int, i: nat, s: Loop)
    requires ValidCohort(c) && InStep(c, w, i, s) && s.pending <= c.g.Keys && s.pending !! s.results.Keys
    ensures Doomed(c.g, s) == Gates(c, i + 1) - s.results.Keys
  {
    hide InStep, Gates, Unsuccessful;
    forall p | p in Doomed(c.g, s) ensures p in Gates(c, i + 1) { DoomedIsGated(c, w, i, s, p); }
    forall p | p in Gates(c, i + 1) && p !in s.results ensures p in Doomed(c.g, s) { GatedIsDoomed(c, w, i, s, p); }
  }

  lemma LevelIsExecuted(c: Cohort, i: nat)
    requires ValidCohort(c)
    ensures Level(c, i) <= Executed(c)
  {
    hide Executed;
  }

  lemma InStepResults(c: Cohort, w: int, i: nat, s: Loop)
    requires ValidCohort(c) && InStep(c, w, i, s)
    ensures s.pending <= c.g.Keys && s.pending !! s.results.Keys
    ensures Good(c, w, Passes(c.g, w, s))
    ensures Passes(c.g, w, s).results.Keys == Successful(c) * Level(c, i) + Gates(c, i + 1)
  {
    hide Good, Passes, Blocked, Gates, Level, Successful;
    BlockedGood(c, w, s);
    PassesGood(c, w, s);
    InStepDoomed(c, w, i, s);
    GatesGrow(c, i);
  }

  /** What runs after the pass: everything of the next level that has not succeeded yet. */
  lemma InStepRuns(c: Cohort, w: int, i: nat, s: Loop, q: Id)
    requires ValidCohort(c) && InStep(c, w, i, s) && s.pending <= c.g.Keys && s.pending !! s.results.Keys
    requires q in Passes(c.g, w, s).active
    ensures q in Level(c, i + 1) && q !in Successful(c) * Level(c, i)
  {
    hide Good, Passes, Gates, Successful, Executed, InStep;
    InStepResults(c, w, i, s);
    var t := Passes(c.g, w, s);
    GoodIsDisjoint(c, w, t);
    GatesAreNotExecuted(c, i + 1);
    SuccessfulIsExecuted(c);
    ActiveIsExecuted(c, w, t, q);
    assert c.g[q].deps <= Level(c, i);
  }

  lemma ActiveIsExecuted(c: Cohort, w: int, t: Loop, q: Id)
    requires ValidCohort(c) && Good(c, w, t) && q in t.active
    ensures q in Executed(c) && q in c.g && c.g[q].deps <= t.results.Keys * Successful(c)
  {
    GoodIsSound(c, w, t);
    assert q !in c.gated;
    hide Good, DependencyBlocked, Successful;
    GoodIsReady(c, w, q, t);
    ReadyIsExecuted(c, t, q);
    ExecutedOnSuccess(c, q);
  }

  lemma InStepLaunches(c: Cohort, w: int, i: nat, s: Loop, q: Id)
    requires Roomy(c, w) && ValidCohort(c) && InStep(c, w, i, s) && s.pending <= c.g.Keys && s.pending !! s.results.Keys
    requires q in Level(c, i + 1) && q !in Successful(c) * Level(c, i)
    ensures q in Passes(c.g, w, s).active
  {
    LevelIsExecuted(c, i + 1);
    ExecutedOnSuccess(c, q);
    GatesAreNotExecuted(c, i + 1);
    assert c.g[q].deps <= Level(c, i);
    InStepResults(c, w, i, s);
    var t := Passes(c.g, w, s);
    hide Level, Good, Passes, Gates, Successful, Executed, Blocked, Roomy;
    BlockedGood(c, w, s);
    PassesGood(c, w, s);
    GoodIsSplit(c, w, t);
    forall d | d in c.g[q].deps ensures d in t.results && t.results[d].state.Succeeded? {
      GoodAgrees(c, w, t, d);
      SuccessfulSucceeds(c, d);
    }
    if q in Blocked(c.g, s).pending { RoomyPasses(c, w, s, q); }
  }

  lemma InStepPasses(c: Cohort, w: int, i: nat, s: Loop)
    requires Roomy(c, w) && ValidCohort(c) && InStep(c, w, i, s)
    ensures s.pending <= c.g.Keys && s.pending !! s.results.Keys && Good(c, w, Passes(c.g, w, s))
    ensures var t := Passes(c.g, w, s);
            && t.results.Keys == Successful(c) * Level(c, i) + Gates(c, i + 1)
            && t.active == Level(c, i + 1) - Successful(c) * Level(c, i)
  {
    hide InStep, Good, Passes, Gates, Successful, Roomy, Level;
    InStepResults(c, w, i, s);
    var t := Passes(c.g, w, s);
    forall q | q in t.active ensures q in Level(c, i + 1) - Successful(c) * Level(c, i) { InStepRuns(c, w, i, s, q); }
    forall q | q in Level(c, i + 1) - Successful(c) * Level(c, i) ensures q in t.active { InStepLaunches(c, w, i, s, q); }
  }

  lemma InOrder(a: set<Id>) returns (order: seq<Id>)
    requires a != {}
    ensures Distinct(order) && Elements(order) == a && order != []
  {
    order := Sorted(a);
    SortByDistinct(NoKey, a);
  }

  lemma {:induction false} RunTurnsCons(c: Cohort, w: int, s: Loop, order: seq<Id>, rest: seq<seq<Id>>)
    requires RunTurns(c, w, s, [order]).Some?
    ensures RunTurns(c, w, s, [order] + rest) == RunTurns(c, w, RunTurns(c, w, s, [order]).value, rest)
    decreases |rest|
  {
    hide Turn, Passes, CanFinish;
    if rest == [] {
      assert [order] + rest == [order];
    } else {
      var all := [order] + rest;
      assert all[..|all| - 1] == [order] + rest[..|rest| - 1];
      RunTurnsCons(c, w, s, order, rest[..|rest| - 1]);
    }
  }

  lemma OneTurn(c: Cohort, w: int, s: Loop, order: seq<Id>)
    requires Good(c, w, s) && order != []
    ensures s.pending <= c.g.Keys && s.pending !! s.results.Keys
    ensures CanFinish(c, order, Passes(c.g, w, s)) ==> RunTurns(c, w, s, [order]) == Some(Turn(c, w, s, order))
  {
    TurnGood(c, w, s, order);
    hide Good;
    assert [order][..0] == [];
    assert RunTurns(c, w, s, []) == Some(s);
  }

  /** A turn in which exactly the given running packages finish. */
  lemma SomeFinish(c: Cohort, w: int, s: Loop, some: set<Id>) returns (order: seq<Id>)
    requires Good(c, w, s) && s.pending <= c.g.Keys && s.pending !! s.results.Keys
    requires some != {} && some <= Passes(c.g, w, s).active
    ensures order != [] && CanFinish(c, order, Passes(c.g, w, s))
    ensures var t, u := Passes(c.g, w, s), Turn(c, w, s, order);
            && Good(c, w, u) && u.active == t.active - some && u.results.Keys == t.results.Keys + some
    ensures RunTurns(c, w, s, [order]) == Some(Turn(c, w, s, order))
  {
    hide Good, Passes, FinishAll, RunTurns;
    PassesGood(c, w, s);
    var t := Passes(c.g, w, s);
    GoodIsSplit(c, w, t);
    order := InOrder(some);
    FinishAllGood(c, w, order, t);
    OneTurn(c, w, s, order);
  }

  /** One more turn in step: the new successes finish, if there are any. */
  lemma StepOn(c: Cohort, w: int, i: nat, s: Loop) returns (order: seq<Id>, u: Loop)
    requires Roomy(c, w) && ValidCohort(c) && InStep(c, w, i, s) && !(Level(c, i + 1) * Successful(c) <= Level(c, i))
    ensures RunTurns(c, w, s, [order]) == Some(u) && InStep(c, w, i + 1, u)
  {
    hide Good, Passes, Gates, Successful, Roomy, Level, Turn, RunTurns, CanFinish;
    InStepPasses(c, w, i, s);
    LevelGrows(c, i);
    var t := Passes(c.g, w, s);
    var some := t.active * Successful(c);
    var q :| q in Level(c, i + 1) * Successful(c) && q !in Level(c, i);
    assert q in some;
    order := SomeFinish(c, w, s, some);
    u := Turn(c, w, s, order);
  }

  /** All that is executed has been, and the gates have spread `n` steps. */
  ghost predicate Exhausted(c: Cohort, w: int, n: nat, u: Loop)
    requires ValidCohort(c)
  {
    Good(c, w, u) && u.active == {} && u.results.Keys == Executed(c) + Gates(c, n)
  }

  /** The last turn: everything that runs finishes. */
  lemma StepOut(c: Cohort, w: int, i: nat, s: Loop) returns (order: seq<Id>, u: Loop)
    requires Roomy(c, w) && ValidCohort(c) && InStep(c, w, i, s)
    requires Executed(c) <= Level(c, i + 1) && !(Executed(c) <= Level(c, i))
    ensures RunTurns(c, w, s, [order]) == Some(u) && Exhausted(c, w, i + 1, u)
  {
    hide Good, Passes, Gates, Successful, Roomy, Level, Turn, RunTurns, CanFinish, Executed;
    InStepPasses(c, w, i, s);
    LevelGrows(c, i);
    LevelIsExecuted(c, i + 1);
    var t := Passes(c.g, w, s);
    var q :| q in Executed(c) && q !in Level(c, i);
    assert q in t.active;
    order := SomeFinish(c, w, s, t.active);
    u := Turn(c, w, s, order);
  }

  lemma PendingIsUnready(c: Cohort, w: int, n: nat, u: Loop, q: Id)
    requires ValidCohort(c) && Exhausted(c, w, n, u) && q in u.pending && u.pending <= c.g.Keys && u.pending !! u.results.Keys
    ensures !Ready(c.g, u.results, q)
  {
    GatesAreNotExecuted(c, n);
    assert DependencyBlocked(c, q);
    hide Good, Gates, DependencyBlocked, Successful, Executed;
    var d := BlockedNeedsFailure(c, q);
    SuccessfulSucceeds(c, d);
    if d in u.results { GoodAgrees(c, w, u, d); }
  }

  lemma NothingAgainst(c: Cohort, w: int, n: nat, u: Loop, p: Id)
    requires ValidCohort(c) && Exhausted(c, w, n, u) && p in c.g && DependencyBlocked(c, p) && p !in Gates(c, n + 1)
    requires forall d | d in c.g[p].deps && d in Executed(c) :: d in Successful(c)
    ensures Unsuccessful(c.g, u.results, p) == {}
  {
    assert c.g[p].deps * Gates(c, n) == {};
    hide Good, DependencyBlocked, Successful, Executed, Gates;
    forall d | d in c.g[p].deps && d in u.results ensures u.results[d].state.Succeeded? {
      GoodAgrees(c, w, u, d);
      SuccessfulSucceeds(c, d);
    }
  }

  lemma ExhaustedLeaves(c: Cohort, w: int, n: nat, u: Loop, k: nat, p: Id)
    requires ValidCohort(c) && Exhausted(c, w, n, u) && n <= k && Outlasts(c, k, p)
    ensures p in u.pending && p !in Gates(c, n + 1)
  {
    hide Good, Successful, Executed, Level, Gates, DependencyBlocked;
    GoodIsSplit(c, w, u);
    BlockedIsNotExecuted(c, p);
    GatesGrowTo(c, n + 1, k + 1);
    GatesGrow(c, n);
  }

  lemma BlockedIsNotExecuted(c: Cohort, p: Id)
    requires ValidCohort(c) && p in c.g && DependencyBlocked(c, p)
    ensures p !in Executed(c)
  {}

  lemma ExhaustedSticks(c: Cohort, w: int, n: nat, u: Loop, k: nat, p: Id)
    requires ValidCohort(c) && Exhausted(c, w, n, u) && n <= k && Outlasts(c, k, p)
    ensures u.pending <= c.g.Keys && CohortStall.Stuck(c.g, u)
  {
    hide Good, Successful, Executed, Level, Gates, DependencyBlocked, Ready, Unsuccessful;
    ExhaustedSplit(c, w, n, u);
    ExhaustedLeaves(c, w, n, u, k, p);
    NothingAgainst(c, w, n, u, p);
    forall q | q in u.pending ensures !Ready(c.g, u.results, q) { PendingIsUnready(c, w, n, u, q); }
  }

  lemma ExhaustedSplit(c: Cohort, w: int, n: nat, u: Loop)
    requires ValidCohort(c) && Exhausted(c, w, n, u)
    ensures u.pending <= c.g.Keys && u.pending !! u.results.Keys
  {
    hide Executed, Gates;
  }

  ghost predicate Raises(c: Cohort, w: int, s: Loop, orders: seq<seq<Id>>) {
    var t := RunTurns(c, w, s, orders);
    t.Some? && t.value.pending <= c.g.Keys && t.value.pending !! t.value.results.Keys && Stalls(c.g, w, t.value)
  }

  lemma RaisesCons(c: Cohort, w: int, s: Loop, order: seq<Id>, u: Loop, rest: seq<seq<Id>>)
    requires RunTurns(c, w, s, [order]) == Some(u) && Raises(c, w, u, rest)
    ensures Raises(c, w, s, [order] + rest)
  {
    hide RunTurns, Stalls;
    RunTurnsCons(c, w, s, order, rest);
  }

  lemma ExhaustedRaises(c: Cohort, w: int, n: nat, u: Loop, k: nat, p: Id)
    requires ValidCohort(c) && w >= 1 && Exhausted(c, w, n, u) && n <= k && Outlasts(c, k, p)
    ensures Raises(c, w, u, [])
  {
    ExhaustedSticks(c, w, n, u, k, p);
    hide Good, Outlasts, Executed, Gates;
    StallsExactlyWhenStuck(c, w, u);
  }

  lemma {:induction false} LockstepRaises(c: Cohort, w: int, i: nat, s: Loop, k: nat, p: Id) returns (orders: seq<seq<Id>>)
    requires Roomy(c, w) && w >= 1 && ValidCohort(c) && InStep(c, w, i, s) && Outlasts(c, k, p)
    requires i <= k && !(Executed(c) <= Level(c, i))
    ensures Raises(c, w, s, orders)
    decreases k - i
  {
    hide Roomy, InStep, Level, Executed, Gates, Raises, RunTurns, Exhausted, DependencyBlocked, Successful;
    assert i < k;
    if Executed(c) <= Level(c, i + 1) {
      var order, u := StepOut(c, w, i, s);
      ExhaustedRaises(c, w, i + 1, u, k, p);
      RaisesCons(c, w, s, order, u, []);
      orders := [order] + [];
    } else {
      if Level(c, i + 1) * Successful(c) <= Level(c, i) {
        forall q | q in Executed(c) ensures q in Level(c, i + 1) { LevelsEnd(c, i, q); }
      }
      var order, u := StepOn(c, w, i, s);
      var rest := LockstepRaises(c, w, i + 1, u, k, p);
      RaisesCons(c, w, s, order, u, rest);
      orders := [order] + rest;
    }
  }

  // --- Fresh runs ---

  lemma {:induction false} GateAllKeys(rest: set<Id>, s: Loop)
    ensures GateAll(rest, s).results.Keys == s.results.Keys + rest && GateAll(rest, s).active == s.active
    decreases rest
  {
    if rest != {} { GateAllKeys(rest - {Least(rest)}, GateOne(Least(rest), s)); }
  }

  lemma FreshInStep(c: Cohort, w: int, record: string)
    requires SoundJournal(c, [KickoffEvent(record)]) && w >= 0
    ensures var s := Begin(c, [KickoffEvent(record)]); ValidCohort(c) && InStep(c, w, 0, s) && Paced(c, 0, s)
  {
    hide Good, Executed, Successful, DependencyBlocked;
    BeginGood(c, w, [KickoffEvent(record)]);
    FreshKeys(c, record);
    GatesAreNotExecuted(c, 0);
  }

  lemma FreshKeys(c: Cohort, record: string)
    requires ValidCohort(c)
    ensures var s := Begin(c, [KickoffEvent(record)]); s.results.Keys == c.gated && s.active == {}
  {
    var s := Resume(c.g, [KickoffEvent(record)]);
    GateAllKeys(s.pending * c.gated, s);
    assert s.pending * c.gated == c.gated;
  }

  /**
   With room for every package: some schedule of a fresh run raises the error exactly when, at the earliest
   turn by which everything can have been executed, the gates have not reached some package that is blocked
   without a failed dependency of its own.
   */
  lemma StallsExactly(c: Cohort, w: int, record: string)
    requires ValidCohort(c) && Roomy(c, w) && w >= 1
    ensures SoundJournal(c, [KickoffEvent(record)])
    ensures (exists orders :: Raises(c, w, Begin(c, [KickoffEvent(record)]), orders)) <==> exists k, p :: Outlasts(c, k, p)
  {
    AcceptedSnoc([], KickoffEvent(record));
    assert SoundJournal(c, [KickoffEvent(record)]);
    hide SoundJournal, Roomy, Paced, Begin, Outlasts, Accepted, Replay;
    var s := Begin(c, [KickoffEvent(record)]);
    FreshInStep(c, w, record);
    if orders :| Raises(c, w, s, orders) {
      RaiseOutlasts(c, w, s, orders);
    }
    if k, p :| Outlasts(c, k, p) {
      var orders := FreshRaises(c, w, s, k, p);
    }
  }

  lemma RaiseOutlasts(c: Cohort, w: int, s: Loop, orders: seq<seq<Id>>)
    requires ValidCohort(c) && w >= 1 && Good(c, w, s) && Paced(c, 0, s) && Raises(c, w, s, orders)
    ensures exists k, p :: Outlasts(c, k, p)
  {
    hide Good, Paced, Outlasts, Stalls, RunTurns;
    RunTurnsGood(c, w, s, orders);
    RunPaced(c, w, s, orders);
    var p := StallOutlasts(c, w, |orders|, RunTurns(c, w, s, orders).value);
  }

  lemma NothingToExecute(c: Cohort, w: int, s: Loop)
    requires ValidCohort(c) && InStep(c, w, 0, s) && Executed(c) <= Level(c, 0)
    ensures Exhausted(c, w, 0, s)
  {
    hide Good, Executed, Gates, Successful;
  }

  lemma FreshRaises(c: Cohort, w: int, s: Loop, k: nat, p: Id) returns (orders: seq<seq<Id>>)
    requires Roomy(c, w) && w >= 1 && ValidCohort(c) && InStep(c, w, 0, s) && Outlasts(c, k, p)
    ensures Raises(c, w, s, orders)
  {
    hide Roomy, InStep, Level, Executed, Gates, Raises, Outlasts;
    if Executed(c) <= Level(c, 0) {
      NothingToExecute(c, w, s);
      ExhaustedRaises(c, w, 0, s, k, p);
      orders := [];
    } else {
      orders := LockstepRaises(c, w, 0, s, k, p);
    }
  }

  // --- Without gates ---

  lemma {:induction false} ExecutedHasLevel(c: Cohort, p: Id, n: nat)
    requires ValidCohort(c) && p in Executed(c) && c.rank[p] < n
    ensures p in Level(c, n)
    decreases n
  {
    ExecutedIsKnown(c);
    ExecutedOnSuccess(c, p);
    SuccessfulIsExecuted(c);
    hide Executed, Successful;
    forall d | d in c.g[p].deps ensures d in Level(c, n - 1) {
      assert d in DepsOf(c.g)[p] && c.rank[d] < c.rank[p];
      ExecutedHasLevel(c, d, n - 1);
    }
  }

  lemma {:induction false} RankBound(s: set<Id>, rank: map<Id, nat>) returns (n: nat)
    requires s <= rank.Keys
    ensures forall p | p in s :: rank[p] < n
  {
    n := 0;
    if s != {} {
      var p :| p in s;
      n := RankBound(s - {p}, rank);
      if rank[p] >= n { n := rank[p] + 1; }
    }
  }

  lemma {:induction false} NoGates(c: Cohort, k: nat)
    requires ValidCohort(c) && c.gated == {}
    ensures Gates(c, k) == {}
  {
    hide DependencyBlocked;
    if k > 0 { NoGates(c, k - 1); }
  }

  lemma OutlastingCascade(c: Cohort, k: nat, p: Id)
    requires ValidCohort(c) && Outlasts(c, k, p) && c.gated == {}
    ensures Cascade(c, p)
  {
    hide Level, Gates, Spec, SpecDependencies;
    forall d | d in c.g[p].deps ensures d in c.g && (Spec(c, d).state.Succeeded? || DependencyBlocked(c, d)) {
      SpecDependencyIsSpec(c, p, d);
    }
  }

  lemma CascadeOutlasts(c: Cohort, p: Id) returns (k: nat)
    requires ValidCohort(c) && Cascade(c, p) && c.gated == {}
    ensures Outlasts(c, k, p)
  {
    ExecutedIsKnown(c);
    k := RankBound(Executed(c), c.rank);
    NoGates(c, k + 1);
    CascadeIsBlocked(c, p);
    hide Level, Gates, Cascade, Spec, DependencyBlocked;
    forall q | q in Executed(c) ensures q in Level(c, k) { ExecutedHasLevel(c, q, k); }
  }

  lemma CascadeIsBlocked(c: Cohort, p: Id)
    requires ValidCohort(c) && Cascade(c, p)
    ensures p in c.g && DependencyBlocked(c, p)
    ensures forall d | d in c.g[p].deps :: d in c.g && (Spec(c, d).state.Succeeded? || DependencyBlocked(c, d))
  {}

  /** Without gates the condition is a cascade. */
  lemma OutlastsIsCascade(c: Cohort)
    requires ValidCohort(c) && c.gated == {}
    ensures (exists k, p :: Outlasts(c, k, p)) <==> exists p :: Cascade(c, p)
  {
    hide Outlasts, Cascade;
    if k, p :| Outlasts(c, k, p) { OutlastingCascade(c, k, p); }
    if p :| Cascade(c, p) { var k := CascadeOutlasts(c, p); }
  }

  /** With room for every package and no gates, a cohort can stall exactly when it has a cascade. */
  lemma StallsExactlyOnCascade(c: Cohort, w: int, record: string)
    requires ValidCohort(c) && Roomy(c, w) && w >= 1 && c.gated == {}
    ensures SoundJournal(c, [KickoffEvent(record)])
    ensures (exists orders :: Raises(c, w, Begin(c, [KickoffEvent(record)]), orders)) <==> exists p :: Cascade(c, p)
  {
    hide Outlasts, Cascade, Raises, Roomy, SoundJournal;
    StallsExactly(c, w, record);
    OutlastsIsCascade(c);
  }
}
