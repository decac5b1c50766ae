/** Graham's bound holds for every duration map and worker count exactly when clashing packages are ordered. */
module GrahamExactness {
  import opened Identifiers
  import opened Dependencies
  import opened OutcomeGraph
  import opened Sums
  import opened CohortBenchmark

  /** Two packages that clash although neither has to wait for the other. */
  ghost predicate Rival(g: Packages, a: Id, b: Id) {
    a in g && b in g && a != b && Conflict(g[a], g[b]) && !Precedes(g, a, b) && !Precedes(g, b, a)
  }

  /** One time unit each for `a` and `b`, nothing for the others. */
  function UnitsFor(g: Packages, a: Id, b: Id): map<Id, int> {
    map p | p in g :: if p == a || p == b then 1 else 0
  }

  lemma {:induction false} SumZero(s: set<Id>, f: map<Id, int>)
    requires s <= f.Keys && forall p | p in s :: f[p] == 0
    ensures Sum(s, f) == 0
    decreases |s|
  {
    if s != {} {
      var p :| p in s;
      SumRemove(s, f, p);
      SumZero(s - {p}, f);
    }
  }

  lemma UnitsTotal(g: Packages, a: Id, b: Id, s: set<Id>)
    requires a in s && b in s && a != b && s <= g.Keys
    ensures Sum(s, UnitsFor(g, a, b)) == 2
  {
    var dur := UnitsFor(g, a, b);
    SumRemove(s, dur, a);
    SumRemove(s - {a}, dur, b);
    SumZero(s - {a} - {b}, dur);
  }

  lemma {:induction false} EmptyChainLastsZero(g: Packages, a: Id, b: Id, c: seq<Id>)
    requires forall i | 0 <= i < |c| :: c[i] in g && c[i] != a && c[i] != b
    ensures Total(UnitsFor(g, a, b), c) == 0
  {
    if c != [] { EmptyChainLastsZero(g, a, b, c[..|c| - 1]); }
  }

  lemma SubChain(deps: Deps, c: seq<Id>, i: nat)
    requires IsChain(deps, c) && i <= |c|
    ensures IsChain(deps, c[i..]) && IsChain(deps, c[..i])
  {
    var d := c[i..];
    forall k | 0 < k < |d| ensures d[k - 1] in deps[d[k]] { assert c[i + k - 1] in deps[c[i + k]]; }
  }

  /** A chain that ends in a rival holds neither of the two before. */
  lemma RivalEndsChain(g: Packages, rank: map<Id, nat>, a: Id, b: Id, c: seq<Id>, i: nat)
    requires Rival(g, a, b) && Ranked(DepsOf(g), rank) && IsChain(DepsOf(g), c)
    requires i < |c| - 1 && (c[|c| - 1] == a || c[|c| - 1] == b)
    ensures c[i] != a && c[i] != b
  {
    var d := c[i..];
    SubChain(DepsOf(g), c, i);
    assert d[0] == c[i] && d[|d| - 1] == c[|c| - 1];
    RankRisesAlongChain(DepsOf(g), rank, d);
    assert Precedes(g, c[i], c[|c| - 1]);
  }

  lemma {:induction false} RivalChains(g: Packages, rank: map<Id, nat>, a: Id, b: Id, c: seq<Id>)
    requires Rival(g, a, b) && Ranked(DepsOf(g), rank) && IsChain(DepsOf(g), c)
    ensures forall i | 0 <= i < |c| :: c[i] in g
    ensures Total(UnitsFor(g, a, b), c) <= 1
  {
    if c != [] {
      var before, p := c[..|c| - 1], c[|c| - 1];
      SubChain(DepsOf(g), c, |c| - 1);
      if p == a || p == b {
        forall i | 0 <= i < |before| ensures before[i] != a && before[i] != b { RivalEndsChain(g, rank, a, b, c, i); }
        EmptyChainLastsZero(g, a, b, before);
      } else {
        RivalChains(g, rank, a, b, before);
      }
    }
  }

  lemma RivalsClash(g: Packages, a: Id, b: Id)
    requires Rival(g, a, b)
    ensures Clash(g, {a, b})
  {
    ConflictSymmetric(g[a], g[b]);
  }

  /** With two workers and these durations, every finished schedule of the graph exceeds the bound. */
  lemma RivalsExceed(g: Packages, a: Id, b: Id, elapsed: int, peak: nat, batches: seq<seq<Id>>)
    requires Rival(g, a, b) && Acyclic(DepsOf(g))
    ensures Instance(g, UnitsFor(g, a, b), 2)
    ensures Finishes(g, UnitsFor(g, a, b), 2, elapsed, peak, batches) ==> !GrahamBound(g, UnitsFor(g, a, b), 2, elapsed)
  {
    hide Rival, Clash, Batched, Orderly;
    var dur := UnitsFor(g, a, b);
    var rank :| Ranked(DepsOf(g), rank);
    RivalKnown(g, a, b);
    RivalsClash(g, a, b);
    UnitsTotal(g, a, b, g.Keys);
    UnitsTotal(g, a, b, {a, b});
    forall c | IsChain(DepsOf(g), c) ensures Total(dur, c) <= 1 { RivalChains(g, rank, a, b, c); }
    if Finishes(g, dur, 2, elapsed, peak, batches) {
      assert elapsed >= 2;
    }
  }

  lemma RivalKnown(g: Packages, a: Id, b: Id)
    requires Rival(g, a, b)
    ensures a in g && b in g && a != b
  {}

  ghost predicate AlwaysGraham(g: Packages) {
    forall dur, w | Instance(g, dur, w) :: GrahamBound(g, dur, w, Outcome(g, dur, w).now)
  }

  /** The scheduler meets Graham's bound on a graph, whatever the durations and workers, iff its clashes are ordered. */
  lemma GrahamExactlyWhenOrderly(g: Packages)
    requires Acyclic(DepsOf(g))
    ensures Orderly(g) <==> AlwaysGraham(g)
  {
    hide Outcome, GrahamBound, Conflict, Acyclic, Precedes;
    if Orderly(g) {
      forall dur, w | Instance(g, dur, w) ensures GrahamBound(g, dur, w, Outcome(g, dur, w).now) {
        var r := Outcome(g, dur, w);
        assert Finishes(g, dur, w, r.now, r.peak, r.batches);
      }
    } else {
      var a, b :| a in g && b in g && a != b && Conflict(g[a], g[b]) && !Precedes(g, a, b) && !Precedes(g, b, a);
      RivalsExceed(g, a, b, 0, 0, []);
      var r := Outcome(g, UnitsFor(g, a, b), 2);
      RivalsExceed(g, a, b, r.now, r.peak, r.batches);
    }
  }

  /** Among the graphs that admission accepts, those are the graphs whose lock sharers are ordered. */
  lemma GrahamExactlyWhenLocksOrdered(g: Packages)
    requires Acyclic(DepsOf(g)) && WritersOrdered(g)
    ensures LocksOrdered(g) <==> AlwaysGraham(g)
  {
    hide AlwaysGraham;
    GrahamExactlyWhenOrderly(g);
    if LocksOrdered(g) { OrderlyUpToLocks(g); }
    if Orderly(g) {
      forall a, b | a in g && b in g && a != b && g[a].locks * g[b].locks != {}
        ensures Precedes(g, a, b) || Precedes(g, b, a)
      {
        assert Conflict(g[a], g[b]);
      }
    }
  }

  // --- The smallest instance ---

  /** Two packages that share a lock and nothing else. */
  const Rivals: Packages := map["a" := Package({}, {}, {"lock"}), "b" := Package({}, {}, {"lock"})]

  lemma RivalsAdmitted()
    ensures Acyclic(DepsOf(Rivals)) && WritersOrdered(Rivals) && Rival(Rivals, "a", "b")
  {
    assert "a" != "b" && "lock" in Rivals["a"].locks * Rivals["b"].locks;
    assert Ranked(DepsOf(Rivals), map["a" := 0, "b" := 0]);
    forall c | IsChain(DepsOf(Rivals), c) ensures |c| < 2 { ChainNeedsDependency(DepsOf(Rivals), c); }
  }

  lemma ChainNeedsDependency(deps: Deps, c: seq<Id>)
    requires IsChain(deps, c)
    ensures |c| >= 2 ==> exists p | p in deps :: deps[p] != {}
  {
    if |c| >= 2 { assert c[0] in deps[c[1]]; }
  }

  lemma RivalsUnordered()
    requires Rival(Rivals, "a", "b")
    ensures !LocksOrdered(Rivals)
  {
    hide Precedes;
    assert "lock" in Rivals["a"].locks * Rivals["b"].locks;
  }

  /** Two workers cannot meet the bound on them. */
  lemma GrahamNeedsOrderedLocks()
    ensures WritersOrdered(Rivals) && !LocksOrdered(Rivals)
    ensures var dur := UnitsFor(Rivals, "a", "b");
            Instance(Rivals, dur, 2) && !GrahamBound(Rivals, dur, 2, Outcome(Rivals, dur, 2).now)
  {
    hide Outcome, GrahamBound, Finishes, Acyclic;
    RivalsAdmitted();
    RivalsUnordered();
    RivalsExceed(Rivals, "a", "b", 0, 0, []);
    var r := Outcome(Rivals, UnitsFor(Rivals, "a", "b"), 2);
    RivalsExceed(Rivals, "a", "b", r.now, r.peak, r.batches);
  }
}
