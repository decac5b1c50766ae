/**
 Dependency relations: a map from each package to the packages it needs.
 The two admission checks of the repository (a peeling loop and a depth-first search) are
 both stated against the notions of this module: chains, cycles, ranks and stuck sets.
 */
module Dependencies {
  import opened Identifiers

  type Deps = map<Id, set<Id>>

  ghost predicate Known(deps: Deps) {
    forall p | p in deps :: deps[p] <= deps.Keys
  }

  /** A chain lists packages so that each one needs the one before it. */
  ghost predicate IsChain(deps: Deps, c: seq<Id>) {
    && (forall i | 0 <= i < |c| :: c[i] in deps)
    && (forall i | 0 < i < |c| :: c[i - 1] in deps[c[i]])
  }

  ghost predicate IsCycle(deps: Deps, c: seq<Id>) {
    IsChain(deps, c) && |c| >= 2 && c[0] == c[|c| - 1]
  }

  ghost predicate HasCycle(deps: Deps) {
    exists c :: IsCycle(deps, c)
  }

  /** A rank puts every package above all the packages it needs. */
  ghost predicate Ranked(deps: Deps, rank: map<Id, nat>) {
    && deps.Keys <= rank.Keys
    && Known(deps)
    && forall p, d | p in deps && d in deps[p] :: rank[d] < rank[p]
  }

  ghost predicate Acyclic(deps: Deps) {
    exists rank :: Ranked(deps, rank)
  }

  /** Every member of a stuck set waits for another member of it. */
  ghost predicate Stuck(deps: Deps, s: set<Id>) {
    s != {} && s <= deps.Keys && forall p | p in s :: deps[p] * s != {}
  }

  lemma {:induction false} RankRisesAlongChain(deps: Deps, rank: map<Id, nat>, c: seq<Id>)
    requires Ranked(deps, rank) && IsChain(deps, c) && |c| >= 2
    ensures rank[c[0]] < rank[c[|c| - 1]]
  {
    if |c| > 2 {
      RankRisesAlongChain(deps, rank, c[..|c| - 1]);
    }
  }

  /** The member of least rank. */
  lemma {:induction false} LeastRank(s: set<Id>, rank: map<Id, nat>) returns (m: Id)
    requires s != {} && s <= rank.Keys
    ensures m in s && forall x | x in s :: rank[m] <= rank[x]
  {
    m :| m in s;
    if s != {m} {
      var n := LeastRank(s - {m}, rank);
      if rank[n] < rank[m] { m := n; }
    }
  }

  lemma RankedIsNeverStuck(deps: Deps, rank: map<Id, nat>, s: set<Id>)
    requires Ranked(deps, rank) && s <= deps.Keys && s != {}
    ensures !Stuck(deps, s)
  {
    var m := LeastRank(s, rank);
    assert deps[m] * s == {};
  }

  /** A stuck set holds chains of every length. */
  lemma {:induction false} StuckChain(deps: Deps, s: set<Id>, n: nat) returns (c: seq<Id>)
    requires Stuck(deps, s)
    ensures IsChain(deps, c) && |c| == n && Elements(c) <= s
  {
    if n == 0 {
      c := [];
    } else {
      var t := StuckChain(deps, s, n - 1);
      var head: Id;
      if t == [] {
        head :| head in s;
      } else {
        assert t[0] in Elements(t);
        head :| head in deps[t[0]] * s;
      }
      c := [head] + t;
      ElementsCons(head, t);
      assert IsChain(deps, c) by {
        forall i | 0 < i < |c| ensures c[i - 1] in deps[c[i]] {
          if i > 1 { assert t[i - 2] in deps[t[i - 1]]; }
        }
      }
    }
  }

  lemma {:induction false} DistinctCardinality(c: seq<Id>)
    requires Distinct(c)
    ensures |Elements(c)| == |c|
  {
    if c != [] {
      var t := c[1..];
      assert forall i, j | 0 <= i < j < |t| :: t[i] == c[i + 1] && t[j] == c[j + 1];
      DistinctCardinality(t);
      assert c == [c[0]] + t;
      ElementsCons(c[0], t);
      assert c[0] !in Elements(t);
    }
  }

  lemma SubsetCardinality(a: set<Id>, b: set<Id>)
    requires a <= b
    ensures |a| <= |b|
    ensures |a| == |b| ==> a == b
  {
    assert |b| == |a| + |b - a| by { assert b == a + (b - a) && a !! (b - a); }
    if |b - a| == 0 { assert b - a == {}; assert b == a; }
  }

  lemma StuckHasCycle(deps: Deps, s: set<Id>)
    requires Stuck(deps, s)
    ensures HasCycle(deps)
  {
    var c := StuckChain(deps, s, |s| + 1);
    if Distinct(c) {
      DistinctCardinality(c);
      SubsetCardinality(Elements(c), s);
      assert false;
    }
    var i, j :| 0 <= i < j < |c| && c[i] == c[j];
    assert IsCycle(deps, c[i..j + 1]);
  }

  /** The three readings of "no cycle" agree on known dependencies. */
  lemma AcyclicMeansNoCycle(deps: Deps)
    requires Acyclic(deps)
    ensures !HasCycle(deps)
    ensures forall s :: !Stuck(deps, s)
  {
    var rank :| Ranked(deps, rank);
    forall c | IsCycle(deps, c) ensures false { RankRisesAlongChain(deps, rank, c); }
    forall s ensures !Stuck(deps, s) {
      if Stuck(deps, s) { RankedIsNeverStuck(deps, rank, s); }
    }
  }
}
