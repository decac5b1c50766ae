/**
 A cascade that never stalls. With one worker, an independent package that is launched after the
 failing one keeps the loop turning until the cascade has been blocked, whatever the schedule.
 */
module CohortMaskedCascade {
  import opened Identifiers
  import opened OutcomeGraph
  import opened CohortJournal
  import opened CohortRuntime
  import opened CohortRuns
  import opened CohortStall
  import opened CohortStallSchedules

  function Run(p: Id, deps: map<Id, PackageResult>): PackageResult {
    PackageResult(if p == "A" then Failed else Succeeded, "", [], "")
  }

  /** A fails, B needs A, C needs B, and D stands alone. */
  const Masked: Cohort :=
    Cohort(
      map["A" := Package({}, {}, {}), "B" := Package({"A"}, {}, {}), "C" := Package({"B"}, {}, {}), "D" := Package({}, {}, {})],
      map["A" := 0, "B" := 1, "C" := 2, "D" := 0], {}, Run)

  lemma FourIds()
    ensures "A" != "B" && "A" != "C" && "A" != "D" && "B" != "C" && "B" != "D" && "C" != "D"
    ensures Least({"A", "B", "C", "D"}) == "A"
  {
    assert "A"[0] == 'A' && "B"[0] == 'B' && "C"[0] == 'C' && "D"[0] == 'D';
    var m := Least({"A", "B", "C", "D"});
    assert Leq(m, "A") && Leq("A", m);
    LeqTotal(m, "A");
  }

  lemma MaskedIsValid()
    ensures ValidCohort(Masked) && Masked.g.Keys == {"A", "B", "C", "D"}
    ensures Masked.g["A"].deps == {} && Masked.g["B"].deps == {"A"} && Masked.g["C"].deps == {"B"} && Masked.g["D"].deps == {}
  {
    FourIds();
    hide Least;
    assert DepsOf(Masked.g)["A"] == {} && DepsOf(Masked.g)["B"] == {"A"};
    assert DepsOf(Masked.g)["C"] == {"B"} && DepsOf(Masked.g)["D"] == {};
  }

  lemma MaskedSpec()
    ensures ValidCohort(Masked) && Masked.g.Keys == {"A", "B", "C", "D"}
    ensures !Spec(Masked, "A").state.Succeeded? && Spec(Masked, "D").state.Succeeded?
    ensures DependencyBlocked(Masked, "B") && !Spec(Masked, "B").state.Succeeded? && Cascade(Masked, "C")
  {
    MaskedIsValid();
    FourIds();
    assert SpecDependencies(Masked, "A") == map[] && SpecDependencies(Masked, "D") == map[];
    SpecDependencyIsSpec(Masked, "B", "A");
    SpecDependencyIsSpec(Masked, "C", "B");
  }

  /** With one worker a fresh run starts the first package alone, if it is ready. */
  lemma LeastRunsFirst(c: Cohort, s: Loop, a: Id)
    requires Good(c, 1, s) && s.results == map[] && s.active == {} && s.pending != {} && a == Least(s.pending)
    requires a in c.g && Ready(c.g, s.results, a)
    ensures s.pending <= c.g.Keys && s.pending !! s.results.Keys
    ensures Passes(c.g, 1, s).active == {a} && Passes(c.g, 1, s).results == map[]
  {
    hide Good, Fits, Least;
    BlockedGood(c, 1, s);
    IdleFits(c, s, a);
    assert Doomed(c.g, s) == {};
    OneIsLaunched(c.g, s, a);
  }

  lemma IdleFits(c: Cohort, s: Loop, a: Id)
    requires Good(c, 1, s) && s.active == {} && a in c.g
    ensures s.count == 0 && Fits(c.g, s, a)
  {}

  lemma OneIsLaunched(g: Packages, s: Loop, a: Id)
    requires s.count == 0 && s.active == {} && s.pending != {} && s.pending <= g.Keys && a == Least(s.pending)
    requires a in g && Ready(g, s.results, a) && Fits(g, s, a)
    ensures var l := RecordDispatch(LaunchAll(g, 1, s.pending, Launching(s, []))); l.active == {a} && l.results == s.results
  {
    hide Least, Ready, Fits;
    var l := Launching(s, []);
    assert LaunchAll(g, 1, s.pending, l) == LaunchTurn(g, a, l);
  }

  /** The states at the top of the turns: nothing done, A failed, then B blocked and D done as well. */
  ghost predicate At(n: nat, t: Loop) {
    && Good(Masked, 1, t) && t.active == {}
    && t.results.Keys == if n == 0 then {} else if n == 1 then {"A"} else {"A", "B", "D"}
  }

  lemma StartTurn(t: Loop)
    requires At(0, t)
    ensures t.pending <= Masked.g.Keys && t.pending !! t.results.Keys
    ensures Passes(Masked.g, 1, t).active == {"A"} && Passes(Masked.g, 1, t).results.Keys == {}
  {
    MaskedIsValid();
    FourIds();
    hide Good, Least, Masked, Passes;
    GoodIsSplit(Masked, 1, t);
    assert t.results == map[] by { assert t.results.Keys == {}; }
    LeastRunsFirst(Masked, t, "A");
  }

  lemma FailedTurn(t: Loop)
    requires At(1, t)
    ensures t.pending <= Masked.g.Keys && t.pending !! t.results.Keys
    ensures Passes(Masked.g, 1, t).active == {"D"} && Passes(Masked.g, 1, t).results.Keys == {"A", "B"}
  {
    MaskedSpec();
    MaskedIsValid();
    FourIds();
    hide Good, Least, Masked, Passes, Spec, Cascade, DependencyBlocked, Blocked;
    GoodIsSplit(Masked, 1, t);
    BlockedGood(Masked, 1, t);
    PassesGood(Masked, 1, t);
    GoodAgrees(Masked, 1, t, "A");
    var u := Passes(Masked.g, 1, t);
    assert Unsuccessful(Masked.g, t.results, "B") == {"A"};
    assert Doomed(Masked.g, t) == {"B"};
    assert u.results.Keys == {"A", "B"};
    GoodIsSplit(Masked, 1, u);
    if u.active == {} { IdleTurnMeansNothingReady(Masked, 1, t, "D"); }
    forall p | p in u.active ensures p == "D" { GoodIsReady(Masked, 1, p, u); GoodAgrees(Masked, 1, u, "B"); GoodIsDisjoint(Masked, 1, u); }
  }

  lemma LastTurn(t: Loop)
    requires At(2, t)
    ensures t.pending <= Masked.g.Keys && t.pending !! t.results.Keys
    ensures Passes(Masked.g, 1, t).active == {} && Passes(Masked.g, 1, t).pending == {}
  {
    MaskedSpec();
    MaskedIsValid();
    FourIds();
    hide Good, Least, Masked, Passes, Spec, Cascade, DependencyBlocked, Blocked;
    GoodIsSplit(Masked, 1, t);
    BlockedGood(Masked, 1, t);
    PassesGood(Masked, 1, t);
    GoodAgrees(Masked, 1, t, "B");
    assert Unsuccessful(Masked.g, t.results, "C") == {"B"};
    assert Doomed(Masked.g, t) == {"C"};
    GoodIsSplit(Masked, 1, Passes(Masked.g, 1, t));
  }

  /** Each turn goes to the next of these states, and after the third there is nothing to finish. */
  lemma NextState(n: nat, t: Loop, order: seq<Id>)
    requires At(n, t) && n <= 2 && order != [] && t.pending <= Masked.g.Keys && t.pending !! t.results.Keys
    requires CanFinish(Masked, order, Passes(Masked.g, 1, t))
    ensures n < 2 && At(n + 1, Turn(Masked, 1, t, order))
  {
    hide Good, Passes, FinishAll, Masked;
    if n == 0 { StartTurn(t); } else if n == 1 { FailedTurn(t); } else { LastTurn(t); }
    PassesGood(Masked, 1, t);
    assert order[0] in Elements(order);
    FinishAllGood(Masked, 1, order, Passes(Masked.g, 1, t));
  }

  lemma {:induction false} RunStates(orders: seq<seq<Id>>)
    requires SoundJournal(Masked, [KickoffEvent("")])
    requires RunTurns(Masked, 1, Begin(Masked, [KickoffEvent("")]), orders).Some?
    ensures |orders| <= 2 && At(|orders|, RunTurns(Masked, 1, Begin(Masked, [KickoffEvent("")]), orders).value)
    decreases |orders|
  {
    hide Good, Passes, Masked, Turn, SoundJournal, Begin, CanFinish;
    var s := Begin(Masked, [KickoffEvent("")]);
    if orders == [] {
      UngatedMasked();
      FreshBegin(Masked, 1, "");
    } else {
      var before := orders[..|orders| - 1];
      RunStates(before);
      NextState(|before|, RunTurns(Masked, 1, s, before).value, orders[|orders| - 1]);
    }
  }

  lemma UngatedMasked()
    ensures Masked.gated == {}
  {}

  /** A cascade, one worker, and no schedule that raises. */
  lemma MaskedNeverRaises(orders: seq<seq<Id>>)
    ensures ValidCohort(Masked) && SoundJournal(Masked, [KickoffEvent("")]) && Cascade(Masked, "C")
    ensures !Raises(Masked, 1, Begin(Masked, [KickoffEvent("")]), orders)
  {
    hide Good, Passes, Masked, SoundJournal, Begin, RunTurns, Cascade, Spec, At, DependencyBlocked;
    MaskedSpec();
    FreshMasked();
    var t := RunTurns(Masked, 1, Begin(Masked, [KickoffEvent("")]), orders);
    if t.Some? {
      RunStates(orders);
      NoStall(|orders|, t.value);
    }
  }

  lemma FreshMasked()
    ensures SoundJournal(Masked, [KickoffEvent("")])
  {
    MaskedIsValid();
    AcceptedSnoc([], KickoffEvent(""));
    hide Masked;
  }

  lemma NoStall(n: nat, t: Loop)
    requires At(n, t) && n <= 2
    ensures t.pending <= Masked.g.Keys && t.pending !! t.results.Keys && !Stalls(Masked.g, 1, t)
  {
    hide Good, Passes, Masked;
    if n == 0 { StartTurn(t); } else if n == 1 { FailedTurn(t); } else { LastTurn(t); }
  }
}
