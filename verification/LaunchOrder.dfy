/** Which packages a pass launches: the choice, and the batch in which it is recorded. */
module LaunchOrder {
  import opened Identifiers
  import opened Dependencies
  import opened OutcomeGraph
  import opened CohortBenchmark

  /** Those of `s` whose identifiers come before `p`. */
  function Earlier(s: set<Id>, p: Id): set<Id> {
    set q | q in s && q != p && Leq(q, p)
  }

  lemma LeastIsEarlier(rest: set<Id>, chosen: set<Id>, p: Id)
    requires p in rest && p == Least(rest) && chosen <= rest - {p}
    ensures Earlier(chosen, p) == {} && Earlier({p} + chosen, p) == {}
    ensures forall q | q in rest - {p} :: Earlier({p} + chosen, q) == {p} + Earlier(chosen, q)
  {
    forall q | q in rest && Leq(q, p) ensures q == p { LeqTotal(p, q); }
  }

  lemma SortedCons(p: Id, chosen: set<Id>)
    requires p !in chosen && forall q | q in chosen :: Leq(p, q)
    ensures Sorted({p} + chosen) == [p] + Sorted(chosen)
  {
    LeqTotal(p, p);
    var s := {p} + chosen;
    assert forall q | q in s :: Before(NoKey, p, q);
    FirstUnique(NoKey, First(NoKey, s), p, s);
    assert s - {p} == chosen;
  }

  /**
   A pass chooses a pending package exactly when, next to what already runs and the chosen ones
   before it, it can be launched and a worker is left.
   */
  ghost predicate InOrder(g: Packages, done: set<Id>, rest: set<Id>, active: set<Id>, capacity: nat, chosen: set<Id>)
    requires rest + active <= g.Keys && chosen <= rest
  {
    forall p | p in rest ::
      p in chosen <==> Launchable(g, done, active + Earlier(chosen, p), p) && |Earlier(chosen, p)| < capacity
  }

  lemma InOrderSkips(g: Packages, done: set<Id>, rest: set<Id>, active: set<Id>, capacity: nat, chosen: set<Id>, p: Id)
    requires rest + active <= g.Keys && p in rest && p == Least(rest) && chosen <= rest - {p}
    requires !Launchable(g, done, active, p) && InOrder(g, done, rest - {p}, active, capacity, chosen)
    ensures InOrder(g, done, rest, active, capacity, chosen)
  {
    hide Launchable;
    LeastIsEarlier(rest, chosen, p);
    assert active + {} == active;
  }

  lemma InOrderTakes(g: Packages, done: set<Id>, rest: set<Id>, active: set<Id>, capacity: nat, chosen: set<Id>, p: Id)
    requires rest + active <= g.Keys && p in rest && p == Least(rest) && chosen <= rest - {p} && capacity > 0
    requires Launchable(g, done, active, p) && InOrder(g, done, rest - {p}, active + {p}, capacity - 1, chosen)
    ensures InOrder(g, done, rest, active, capacity, {p} + chosen)
  {
    hide Launchable, Leq, Least;
    LeastIsEarlier(rest, chosen, p);
    var all := {p} + chosen;
    forall q | q in rest
      ensures q in all <==> Launchable(g, done, active + Earlier(all, q), q) && |Earlier(all, q)| < capacity
    {
      if q == p {
        assert active + {} == active;
      } else {
        EarlierShifts(active, Earlier(chosen, q), p);
      }
    }
  }

  lemma EarlierShifts(active: set<Id>, earlier: set<Id>, p: Id)
    requires p !in earlier
    ensures active + ({p} + earlier) == active + {p} + earlier && |{p} + earlier| == 1 + |earlier|
  {
    SetAssociates(active, p, earlier);
  }

  lemma NothingChosen(g: Packages, done: set<Id>, rest: set<Id>, active: set<Id>, capacity: nat)
    requires rest + active <= g.Keys && (rest == {} || capacity == 0)
    ensures InOrder(g, done, rest, active, capacity, {}) && Sorted({}) == []
  {
    assert forall p | p in rest :: Earlier({}, p) == {};
  }

  /** `r` is `s` with the chosen packages running, in identifier order. */
  ghost predicate Adds(s: Scan, r: Scan, chosen: set<Id>) {
    r.active.Keys == s.active.Keys + chosen && r.launched == s.launched + Sorted(chosen)
  }

  lemma AddsOne(s: Scan, t: Scan, r: Scan, p: Id, more: set<Id>)
    requires t.active.Keys == s.active.Keys + {p} && t.launched == s.launched + [p] && Adds(t, r, more)
    requires p !in more && forall q | q in more :: Leq(p, q)
    ensures Adds(s, r, {p} + more)
  {
    SortedCons(p, more);
    hide Sorted, Leq, Elements;
    SeqAssociates(s.launched, p, Sorted(more));
    SetAssociates(s.active.Keys, p, more);
  }

  lemma SeqAssociates(a: seq<Id>, p: Id, b: seq<Id>)
    ensures a + ([p] + b) == (a + [p]) + b
  {}

  lemma SetAssociates(a: set<Id>, p: Id, b: set<Id>)
    ensures a + ({p} + b) == (a + {p}) + b
  {}

  /** What a pass over `rest` has done when it ends with `r`. */
  ghost predicate Explains(g: Packages, done: set<Id>, rest: set<Id>, s: Scan, r: Scan, chosen: set<Id>)
    requires rest <= g.Keys && s.active.Keys <= g.Keys
  {
    chosen <= rest && InOrder(g, done, rest, s.active.Keys, s.capacity, chosen) && Adds(s, r, chosen)
  }

  lemma ExplainsTaken(g: Packages, done: set<Id>, rest: set<Id>, s: Scan, t: Scan, r: Scan, more: set<Id>, p: Id)
    requires rest <= g.Keys && s.active.Keys <= g.Keys && p in rest && p == Least(rest) && s.capacity > 0
    requires Launchable(g, done, s.active.Keys, p)
    requires t.active.Keys == s.active.Keys + {p} && t.launched == s.launched + [p] && t.capacity == s.capacity - 1
    requires Explains(g, done, rest - {p}, t, r, more)
    ensures Explains(g, done, rest, s, r, {p} + more)
  {
    hide Launchable, InOrder, Adds;
    InOrderTakes(g, done, rest, s.active.Keys, s.capacity, more, p);
    AddsOne(s, t, r, p, more);
  }

  lemma ExplainsSkipped(g: Packages, done: set<Id>, rest: set<Id>, s: Scan, r: Scan, chosen: set<Id>, p: Id)
    requires rest <= g.Keys && s.active.Keys <= g.Keys && p in rest && p == Least(rest)
    requires !Launchable(g, done, s.active.Keys, p) && Explains(g, done, rest - {p}, s, r, chosen)
    ensures Explains(g, done, rest, s, r, chosen)
  {
    hide Launchable, InOrder, Adds;
    InOrderSkips(g, done, rest, s.active.Keys, s.capacity, chosen, p);
  }

  /** The benchmark's pass over the pending packages. */
  lemma {:induction false} ScanInOrder(g: Packages, dur: map<Id, int>, now: int, done: set<Id>, rest: set<Id>, s: Scan)
    returns (chosen: set<Id>)
    requires dur.Keys == g.Keys && rest <= g.Keys && s.active.Keys <= g.Keys && rest !! s.active.Keys
    ensures Explains(g, done, rest, s, ScanPending(g, dur, now, done, rest, s), chosen)
    decreases rest
  {
    hide Launchable, Explains;
    if rest == {} || s.capacity == 0 {
      chosen := {};
      ExplainsNothing(g, done, rest, s);
    } else {
      var p := Least(rest);
      var t := ScanOne(g, dur, now, done, p, s);
      var r := ScanPending(g, dur, now, done, rest - {p}, t);
      chosen := ScanInOrder(g, dur, now, done, rest - {p}, t);
      if Launchable(g, done, s.active.Keys, p) {
        assert t.active.Keys == s.active.Keys + {p};
        ExplainsTaken(g, done, rest, s, t, r, chosen, p);
        chosen := {p} + chosen;
      } else {
        ExplainsSkipped(g, done, rest, s, r, chosen, p);
      }
    }
  }

  lemma ExplainsNothing(g: Packages, done: set<Id>, rest: set<Id>, s: Scan)
    requires rest <= g.Keys && s.active.Keys <= g.Keys && (rest == {} || s.capacity == 0)
    ensures Explains(g, done, rest, s, s, {})
  {
    NothingChosen(g, done, rest, s.active.Keys, s.capacity);
    AddsNothing(s);
    hide InOrder, Adds;
  }

  lemma AddsNothing(s: Scan)
    ensures Adds(s, s, {})
  {
    assert s.active.Keys + {} == s.active.Keys && s.launched + [] == s.launched;
  }

  /** A pass of the simulation launches, in identifier order, exactly the packages so chosen. */
  lemma DispatchInOrder(g: Packages, dur: map<Id, int>, w: int, s: Sim) returns (chosen: set<Id>)
    requires dur.Keys == g.Keys && s.pending <= g.Keys && s.active.Keys <= g.Keys && s.pending !! s.active.Keys && s.count <= w
    ensures chosen <= s.pending && InOrder(g, s.done, s.pending, s.active.Keys, w - s.count, chosen)
    ensures var r := Dispatch(g, dur, w, s); r.active.Keys == s.active.Keys + chosen && r.launched == Sorted(chosen)
  {
    hide InOrder, Sorted, ScanPending;
    chosen := ScanInOrder(g, dur, s.now, s.done, s.pending, Scan(s.active, [], w - s.count));
    assert [] + Sorted(chosen) == Sorted(chosen);
  }

  /** There is only one such choice. */
  lemma ChoiceIsUnique(g: Packages, done: set<Id>, rest: set<Id>, active: set<Id>, capacity: nat, a: set<Id>, b: set<Id>)
    requires rest + active <= g.Keys && a <= rest && b <= rest
    requires InOrder(g, done, rest, active, capacity, a) && InOrder(g, done, rest, active, capacity, b)
    ensures a == b
  {
    hide Launchable, Leq, Earlier;
    var diff := a + b - a * b;
    if diff != {} {
      var p := Least(diff);
      EarlierAgree(a, b, p);
    } else {
      forall x ensures x in a <==> x in b { assert x in diff <==> (x in a) != (x in b); }
    }
  }

  lemma EarlierAgree(a: set<Id>, b: set<Id>, p: Id)
    requires a + b - a * b != {} && p == Least(a + b - a * b)
    ensures Earlier(a, p) == Earlier(b, p)
  {
    forall q | q in a + b - a * b && Leq(q, p) ensures q == p { LeqTotal(q, p); }
  }

  /** Two packages clash exactly when some path or some lock belongs to both. */
  lemma ConflictExactly(a: Package, b: Package)
    ensures Conflict(a, b) <==> exists x :: (x in a.paths && x in b.paths) || (x in a.locks && x in b.locks)
  {
    if x :| x in a.paths && x in b.paths { assert x in a.paths * b.paths; }
    if x :| x in a.locks && x in b.locks { assert x in a.locks * b.locks; }
  }

  /** Time moves to the earliest finish; exactly what finishes then is done, and all that still runs ends later. */
  lemma AdvancesToEarliestFinish(s: Sim, left: nat)
    requires s.active.Keys != {}
    ensures var n := Advanced(s, left);
            && (exists p | p in s.active :: s.active[p] == n.now) && (forall p | p in s.active :: n.now <= s.active[p])
            && (forall p :: p in n.done <==> p in s.done || (p in s.active && s.active[p] <= n.now))
            && (forall p :: p in n.active <==> p in s.active && s.active[p] > n.now)
            && (forall p | p in n.active :: n.active[p] == s.active[p])
  {
    SomeCompletes(s.active);
  }

  // --- The peak of the simulation ---

  function Larger(a: int, b: int): int { if a > b then a else b }

  /** The most packages active at once from `s` on. */
  ghost function MostActive(g: Packages, dur: map<Id, int>, w: int, s: Sim): int
    requires Instance(g, dur, w) && Reached(g, dur, w, s)
    decreases s.pending + s.active.Keys
  {
    if s.pending + s.active.Keys == {} then 0
    else
      TurnReached(g, dur, w, s);
      Larger(|Dispatch(g, dur, w, s).active.Keys|, MostActive(g, dur, w, Next(g, dur, w, s)))
  }

  lemma ReachedFacts(g: Packages, dur: map<Id, int>, w: int, s: Sim)
    requires Instance(g, dur, w) && Reached(g, dur, w, s)
    ensures dur.Keys == g.Keys && s.pending <= g.Keys && s.active.Keys <= g.Keys && s.pending !! s.active.Keys
    ensures s.count == |s.active.Keys| <= w
  {}

  lemma TurnPeak(g: Packages, dur: map<Id, int>, w: int, s: Sim)
    requires Instance(g, dur, w) && Reached(g, dur, w, s) && CanTurn(g, dur, w, s) && s.count <= s.peak
    ensures var n := Next(g, dur, w, s);
            n.peak == Larger(s.peak, |Dispatch(g, dur, w, s).active.Keys|) && n.count <= n.peak
  {
    hide Reached, Instance, InOrder, ScanPending, Sorted, Left, Advanced;
    ReachedFacts(g, dur, w, s);
    var r := Dispatch(g, dur, w, s);
    var chosen := DispatchInOrder(g, dur, w, s);
    assert |Sorted(chosen)| == |chosen|;
    assert chosen == {} ==> r.active.Keys == s.active.Keys;
    LeftIsFewer(r.active);
    AdvancedKeepsPeak(Dispatched(w, s, r), Left(r.active));
  }

  lemma AdvancedKeepsPeak(s: Sim, left: nat)
    requires s.active.Keys != {}
    ensures Advanced(s, left).peak == s.peak && Advanced(s, left).count == left
  {}

  lemma LeftIsFewer(active: map<Id, int>)
    requires active.Keys != {}
    ensures Left(active) <= |active.Keys|
  {
    SubsetCardinality((active - Completed(active, NextCompletion(active))).Keys, active.Keys);
  }

  lemma {:induction false} FinalPeak(g: Packages, dur: map<Id, int>, w: int, s: Sim)
    requires Instance(g, dur, w) && Reached(g, dur, w, s) && s.count <= s.peak
    ensures Final(g, dur, w, s).peak == Larger(s.peak, MostActive(g, dur, w, s))
    decreases s.pending + s.active.Keys
  {
    hide Reached, Instance, Next, Dispatch;
    if s.pending + s.active.Keys != {} {
      TurnReached(g, dur, w, s);
      TurnPeak(g, dur, w, s);
      FinalPeak(g, dur, w, Next(g, dur, w, s));
    }
  }

  /** The reported peak is the largest number of packages active at once. */
  lemma PeakExactly(g: Packages, dur: map<Id, int>, w: int)
    requires Instance(g, dur, w)
    ensures Reached(g, dur, w, Start(g)) && Outcome(g, dur, w).peak == MostActive(g, dur, w, Start(g))
  {
    hide Reached, Instance, Finishes, MostActive, Final;
    StartReached(g, dur, w);
    FinalPeak(g, dur, w, Start(g));
    MostActiveNonNegative(g, dur, w, Start(g));
  }

  lemma {:induction false} MostActiveNonNegative(g: Packages, dur: map<Id, int>, w: int, s: Sim)
    requires Instance(g, dur, w) && Reached(g, dur, w, s)
    ensures MostActive(g, dur, w, s) >= 0
    decreases s.pending + s.active.Keys
  {
    hide Reached, Instance, Next, Dispatch;
    if s.pending + s.active.Keys != {} { TurnReached(g, dur, w, s); }
  }
}
