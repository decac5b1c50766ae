/** The runtime's launching pass chooses by the same rule as the benchmark's. */
module RuntimeLaunchOrder {
  import opened Identifiers
  import opened Dependencies
  import opened OutcomeGraph
  import opened CohortJournal
  import opened CohortRuntime
  import opened CohortRuns
  import opened LaunchOrder
  import Benchmark = CohortBenchmark

  ghost function Done(results: map<Id, PackageResult>): set<Id> {
    set p | p in results && results[p].state.Succeeded?
  }

  lemma ReadyExactly(g: Packages, results: map<Id, PackageResult>, p: Id)
    requires p in g
    ensures Ready(g, results, p) <==> g[p].deps <= Done(results)
  {}

  /** The bookkeeping sets answer exactly whether a package clashes with one that runs. */
  lemma FitsExactly(g: Packages, s: Loop, p: Id)
    requires s.active <= g.Keys && p in g && Exclusive(g, s)
    ensures Fits(g, s, p) <==> !Benchmark.Conflicts(g, p, s.active)
  {
    if q :| q in s.active && Benchmark.Conflict(g[p], g[q]) {
      ConflictExactly(g[p], g[q]);
    }
    if !Fits(g, s, p) {
      if x :| x in s.paths && x in g[p].paths {
        var q :| q in s.active && x in g[q].paths;
        assert x in g[p].paths * g[q].paths;
      } else {
        var x :| x in s.locks && x in g[p].locks;
        var q :| q in s.active && x in g[q].locks;
        assert x in g[p].locks * g[q].locks;
      }
    }
  }

  lemma TakenExactly(g: Packages, s: Loop, p: Id)
    requires s.active <= g.Keys && p in g && Exclusive(g, s)
    ensures Ready(g, s.results, p) && Fits(g, s, p) <==> Benchmark.Launchable(g, Done(s.results), s.active, p)
  {
    ReadyExactly(g, s.results, p);
    FitsExactly(g, s, p);
  }

  /** What the pass over `rest` has done when it ends with `r`. */
  ghost predicate Explains(g: Packages, w: int, rest: set<Id>, l: Launching, r: Launching, chosen: set<Id>)
    requires rest <= g.Keys && l.loop.active <= g.Keys && l.loop.count <= w
  {
    && chosen <= rest && InOrder(g, Done(l.loop.results), rest, l.loop.active, w - l.loop.count, chosen)
    && r.loop.active == l.loop.active + chosen && r.loop.pending == l.loop.pending - chosen
    && r.loop.count == l.loop.count + |chosen| && r.launched == l.launched + Sorted(chosen)
    && r.loop.results == l.loop.results && r.loop.batches == l.loop.batches
    && r.loop.peak == l.loop.peak && r.loop.journal == l.loop.journal
  }

  lemma ExplainsTaken(g: Packages, w: int, rest: set<Id>, l: Launching, r: Launching, more: set<Id>, p: Id)
    requires rest <= g.Keys && l.loop.active <= g.Keys && p in rest && p == Least(rest) && l.loop.count < w
    requires Benchmark.Launchable(g, Done(l.loop.results), l.loop.active, p)
    requires var t := Launching(LaunchOne(g, p, l.loop), l.launched + [p]);
             Explains(g, w, rest - {p}, t, r, more)
    ensures Explains(g, w, rest, l, r, {p} + more)
  {
    hide Benchmark.Launchable, InOrder, Sorted, Leq, Done;
    InOrderTakes(g, Done(l.loop.results), rest, l.loop.active, w - l.loop.count, more, p);
    SortedCons(p, more);
    SeqAssociates(l.launched, p, Sorted(more));
    EarlierShifts(l.loop.active, more, p);
    assert l.loop.pending - {p} - more == l.loop.pending - ({p} + more);
  }

  lemma ExplainsSkipped(g: Packages, w: int, rest: set<Id>, l: Launching, r: Launching, chosen: set<Id>, p: Id)
    requires rest <= g.Keys && l.loop.active <= g.Keys && p in rest && p == Least(rest) && l.loop.count <= w
    requires !Benchmark.Launchable(g, Done(l.loop.results), l.loop.active, p) && Explains(g, w, rest - {p}, l, r, chosen)
    ensures Explains(g, w, rest, l, r, chosen)
  {
    hide Benchmark.Launchable, InOrder, Sorted, Done;
    InOrderSkips(g, Done(l.loop.results), rest, l.loop.active, w - l.loop.count, chosen, p);
  }

  lemma ExplainsNothing(g: Packages, w: int, rest: set<Id>, l: Launching)
    requires rest <= g.Keys && l.loop.active <= g.Keys && l.loop.count <= w && (rest == {} || l.loop.count == w)
    ensures Explains(g, w, rest, l, l, {})
  {
    NothingChosen(g, Done(l.loop.results), rest, l.loop.active, w - l.loop.count);
    hide InOrder, Done;
    assert l.loop.active + {} == l.loop.active && l.loop.pending - {} == l.loop.pending && l.launched + [] == l.launched;
  }

  lemma {:induction false} LaunchAllInOrder(g: Packages, w: int, rest: set<Id>, l: Launching) returns (chosen: set<Id>)
    requires rest <= g.Keys && l.loop.active <= g.Keys && rest !! l.loop.active && Exclusive(g, l.loop) && l.loop.count <= w
    ensures Explains(g, w, rest, l, LaunchAll(g, w, rest, l), chosen)
    decreases rest
  {
    hide Benchmark.Launchable, Explains, Exclusive, Ready, Fits;
    if rest == {} || l.loop.count >= w {
      chosen := {};
      ExplainsNothing(g, w, rest, l);
    } else {
      var p := Least(rest);
      TakenExactly(g, l.loop, p);
      if Ready(g, l.loop.results, p) && Fits(g, l.loop, p) {
        var t := Launching(LaunchOne(g, p, l.loop), l.launched + [p]);
        LaunchOneExclusive(g, p, l.loop);
        chosen := LaunchAllInOrder(g, w, rest - {p}, t);
        ExplainsTaken(g, w, rest, l, LaunchAll(g, w, rest - {p}, t), chosen, p);
        chosen := {p} + chosen;
      } else {
        chosen := LaunchAllInOrder(g, w, rest - {p}, l);
        ExplainsSkipped(g, w, rest, l, LaunchAll(g, w, rest - {p}, l), chosen, p);
      }
    }
  }

  // --- A turn ---

  lemma {:induction false} BlockAllKeepsBatches(g: Packages, rest: set<Id>, s: Loop)
    requires rest <= g.Keys && rest !! s.results.Keys && forall p | p in rest :: Unsuccessful(g, s.results, p) != {}
    ensures BlockAll(g, rest, s).batches == s.batches && BlockAll(g, rest, s).peak == s.peak
    decreases rest
  {
    if rest != {} {
      var p := Least(rest);
      var t := BlockOne(g, p, s);
      forall q | q in rest - {p} ensures Unsuccessful(g, t.results, q) != {} {
        UnsuccessfulGrows(g, s.results, q, p, t.results[p]);
      }
      BlockAllKeepsBatches(g, rest - {p}, t);
    }
  }

  lemma BlockedKeepsBatches(c: Cohort, w: int, s: Loop)
    requires Good(c, w, s)
    ensures s.pending <= c.g.Keys && s.pending !! s.results.Keys
    ensures Blocked(c.g, s).batches == s.batches && Blocked(c.g, s).peak == s.peak
  {
    hide Good;
    BlockedGood(c, w, s);
    BlockAllKeepsBatches(c.g, Doomed(c.g, s), s);
  }

  /** The chosen packages run, in one recorded batch, with the number of packages then running. */
  ghost predicate Began(b: Loop, t: Loop, chosen: set<Id>) {
    && t.active == b.active + chosen && t.results == b.results
    && (if chosen == {} then t.batches == b.batches && t.peak == b.peak && t.journal == b.journal
        else && t.batches == b.batches + [Sorted(chosen)] && t.peak == Larger(b.peak, |t.active|)
             && t.journal == b.journal + [DispatchEvent(Sorted(chosen), |t.active|)])
  }

  /** What the passes of a turn make of `s`: after blocking, the packages chosen in order begin. */
  ghost predicate Starts(c: Cohort, w: int, s: Loop, t: Loop, chosen: set<Id>)
    requires s.pending <= c.g.Keys && s.pending !! s.results.Keys
  {
    var b := Blocked(c.g, s);
    && b.batches == s.batches && b.peak == s.peak
    && b.pending + b.active <= c.g.Keys && b.count == |b.active| <= w && chosen <= b.pending
    && InOrder(c.g, Done(b.results), b.pending, b.active, w - b.count, chosen) && Began(b, t, chosen)
  }

  lemma GoodForPass(c: Cohort, w: int, s: Loop)
    requires Good(c, w, s)
    ensures s.pending + s.active <= c.g.Keys && s.pending !! s.active && Exclusive(c.g, s) && s.count == |s.active| <= w
  {}

  lemma RecordedStart(g: Packages, w: int, b: Loop, r: Launching, chosen: set<Id>)
    requires b.pending + b.active <= g.Keys && b.pending !! b.active && b.count == |b.active| <= w
    requires Explains(g, w, b.pending, Launching(b, []), r, chosen)
    ensures Began(b, RecordDispatch(r), chosen)
  {
    hide InOrder, Done, Sorted;
    BatchExactly(b.active, chosen);
  }

  lemma ExplainsChosen(g: Packages, w: int, b: Loop, r: Launching, chosen: set<Id>)
    requires b.pending + b.active <= g.Keys && b.count <= w && Explains(g, w, b.pending, Launching(b, []), r, chosen)
    ensures chosen <= b.pending && InOrder(g, Done(b.results), b.pending, b.active, w - b.count, chosen)
  {
    hide InOrder, Done;
  }

  /** Every turn starts exactly the packages chosen in identifier order, and records them and how many run. */
  lemma PassesInOrder(c: Cohort, w: int, s: Loop) returns (chosen: set<Id>)
    requires Good(c, w, s)
    ensures s.pending <= c.g.Keys && s.pending !! s.results.Keys && Starts(c, w, s, Passes(c.g, w, s), chosen)
  {
    hide Good, InOrder, Done, Exclusive, RecordDispatch, LaunchAll, Blocked, Explains, Began, BlockedMore;
    BlockedGood(c, w, s);
    BlockedKeepsBatches(c, w, s);
    var b := Blocked(c.g, s);
    GoodForPass(c, w, b);
    chosen := LaunchAllInOrder(c.g, w, b.pending, Launching(b, []));
    ExplainsChosen(c.g, w, b, LaunchAll(c.g, w, b.pending, Launching(b, [])), chosen);
    RecordedStart(c.g, w, b, LaunchAll(c.g, w, b.pending, Launching(b, [])), chosen);
  }

  lemma BatchExactly(active: set<Id>, chosen: set<Id>)
    ensures [] + Sorted(chosen) == Sorted(chosen) && (Sorted(chosen) == [] <==> chosen == {})
    ensures active !! chosen ==> |active + chosen| == |active| + |chosen|
  {
    assert |Sorted(chosen)| == |chosen|;
  }

  // --- The peak ---

  /** The most packages that run at once in the given turns and the passes after them. */
  ghost function MostActive(c: Cohort, w: int, s: Loop, orders: seq<seq<Id>>): int {
    var before := if orders == [] then 0 else MostActive(c, w, s, orders[..|orders| - 1]);
    var t := RunTurns(c, w, s, orders);
    if t.Some? && t.value.pending <= c.g.Keys && t.value.pending !! t.value.results.Keys
    then Larger(before, |Passes(c.g, w, t.value).active|) else before
  }

  lemma PassesPeak(c: Cohort, w: int, s: Loop)
    requires Good(c, w, s) && |s.active| <= s.peak
    ensures s.pending <= c.g.Keys && s.pending !! s.results.Keys
    ensures Passes(c.g, w, s).peak == Larger(s.peak, |Passes(c.g, w, s).active|)
  {
    hide Good, InOrder, Done, Passes, Blocked;
    BlockedGood(c, w, s);
    var chosen := PassesInOrder(c, w, s);
    var b := Blocked(c.g, s);
    assert b.active + {} == b.active;
  }

  lemma {:induction false} FinishAllKeepsPeak(c: Cohort, order: seq<Id>, s: Loop)
    requires forall p | p in order :: p in c.g
    ensures FinishAll(c, order, s).peak == s.peak && FinishAll(c, order, s).batches == s.batches
    ensures FinishAll(c, order, s).active <= s.active
  {
    if order != [] { FinishAllKeepsPeak(c, order[..|order| - 1], s); }
  }

  lemma TurnPeak(c: Cohort, w: int, s: Loop, order: seq<Id>)
    requires Good(c, w, s) && |s.active| <= s.peak && s.pending <= c.g.Keys && s.pending !! s.results.Keys
    requires CanFinish(c, order, Passes(c.g, w, s))
    ensures var t, u := Passes(c.g, w, s), Turn(c, w, s, order); u.peak == t.peak == Larger(s.peak, |t.active|) && |u.active| <= u.peak
  {
    hide Good, Passes, FinishAll;
    PassesPeak(c, w, s);
    var t, u := Passes(c.g, w, s), Turn(c, w, s, order);
    FinishAllKeepsPeak(c, order, t);
    SubsetCardinality(u.active, t.active);
  }

  /** The recorded peak is the most packages that ever ran at once, now or in the attempts before. */
  lemma {:induction false} RunPeak(c: Cohort, w: int, s: Loop, orders: seq<seq<Id>>)
    requires Good(c, w, s) && s.active == {} && s.peak >= 0 && RunTurns(c, w, s, orders).Some?
    ensures var t := RunTurns(c, w, s, orders).value;
            && Good(c, w, t) && |t.active| <= t.peak && t.pending <= c.g.Keys && t.pending !! t.results.Keys
            && Passes(c.g, w, t).peak == Larger(s.peak, MostActive(c, w, s, orders))
            && t.peak == Larger(s.peak, if orders == [] then 0 else MostActive(c, w, s, orders[..|orders| - 1]))
    decreases |orders|
  {
    hide Good, Passes, Turn, CanFinish;
    if orders != [] {
      var before := orders[..|orders| - 1];
      RunPeak(c, w, s, before);
      RunTurnsGood(c, w, s, orders);
      TurnPeak(c, w, RunTurns(c, w, s, before).value, orders[|orders| - 1]);
    }
    PassesPeak(c, w, RunTurns(c, w, s, orders).value);
  }
}
