/**
 Outcome graphs and their admission: unique ids, a base snapshot, positive capacity, known
 dependencies, no cycle (a depth-first search), and an ordering dependency between any two
 packages that write a common path.
 */
module OutcomeGraph {
  import opened Identifiers
  import opened Dependencies

  datatype Package = Package(deps: set<Id>, paths: set<string>, locks: set<string>)

  type Packages = map<Id, Package>

  /** `order` is the order in which the packages were given; `byId` holds their contents. */
  datatype Graph = Graph(order: seq<Id>, byId: Packages, baseSnapshot: string, maximumConcurrent: int)

  datatype Compilation =
    | Compiled
    | DuplicateId
    | MissingSnapshot
    | NoCapacity
    | MissingDependency
    | CycleFound
    | OverlappingWriters

  function DepsOf(g: Packages): Deps {
    map p | p in g :: g[p].deps
  }

  ghost predicate WritersOrdered(g: Packages) {
    forall a, b | a in g && b in g && a != b && g[a].paths * g[b].paths != {} ::
      b in g[a].deps || a in g[b].deps
  }

  /** Right in everything but its dependencies and writers. */
  ghost predicate Described(g: Graph) {
    Distinct(g.order) && g.baseSnapshot != "" && g.maximumConcurrent >= 1
  }

  ghost predicate WellFormed(g: Graph) {
    && Described(g)
    && Acyclic(DepsOf(g.byId))
    && WritersOrdered(g.byId)
  }

  /** The packages a search has left behind: closed under dependencies and numbered upward. */
  ghost predicate Finished(deps: Deps, rank: map<Id, nat>) {
    && rank.Keys <= deps.Keys
    && (forall p | p in rank :: rank[p] < |rank.Keys|)
    && (forall p, d | p in rank && d in deps[p] :: d in rank && rank[d] < rank[p])
  }

  ghost function Numbered(rank: map<Id, nat>, i: Id): map<Id, nat> {
    rank[i := |rank.Keys|]
  }

  lemma FinishOne(deps: Deps, rank: map<Id, nat>, i: Id)
    requires Finished(deps, rank) && i in deps && i !in rank && deps[i] <= rank.Keys
    ensures Finished(deps, Numbered(rank, i)) && Numbered(rank, i).Keys == rank.Keys + {i}
  {
    var rank' := Numbered(rank, i);
    assert rank'.Keys == rank.Keys + {i};
    assert |rank'.Keys| == |rank.Keys| + 1;
  }

  lemma MeetingPathClosesCycle(deps: Deps, i: Id, path: seq<Id>)
    requires IsChain(deps, [i] + path) && i in path
    ensures HasCycle(deps)
  {
    var k :| 0 <= k < |path| && path[k] == i;
    var c := ([i] + path)[..k + 2];
    assert c[k + 1] == i;
    assert IsCycle(deps, c);
  }

  /**
   One `visit` call. `path` lists the packages being visited, innermost first, so it is a
   chain that `i` extends; meeting `i` on it closes a cycle.
   */
  method Visit(deps: Deps, i: Id, visiting: set<Id>, visited: set<Id>, ghost path: seq<Id>, ghost rank: map<Id, nat>)
    returns (ok: bool, visited': set<Id>, ghost rank': map<Id, nat>)
    requires Known(deps) && i in deps
    requires visiting == Elements(path) && visiting <= deps.Keys && visiting !! visited
    requires IsChain(deps, [i] + path)
    requires Finished(deps, rank) && visited == rank.Keys
    ensures ok ==> Finished(deps, rank') && visited' == rank'.Keys
    ensures ok ==> visited + {i} <= visited' && visiting !! visited'
    ensures !ok ==> HasCycle(deps)
    decreases deps.Keys - visiting
  {
    hide IsChain, Finished, HasCycle, Numbered;
    ok, visited', rank' := true, visited, rank;
    if i in visiting {
      MeetingPathClosesCycle(deps, i, path);
      return false, visited, rank;
    }
    if i in visited {
      return;
    }
    var rest := deps[i];
    ElementsCons(i, path);
    while rest != {}
      invariant rest <= deps[i]
      invariant Finished(deps, rank') && visited' == rank'.Keys
      invariant visited <= visited' && visiting + {i} !! visited' && deps[i] - rest <= visited'
      decreases rest
    {
      var d :| d in rest;
      ChainCons(deps, d, [i] + path);
      ok, visited', rank' := Visit(deps, d, visiting + {i}, visited', [i] + path, rank');
      if !ok { return; }
      rest := rest - {d};
    }
    FinishOne(deps, rank', i);
    rank' := Numbered(rank', i);
    visited' := visited' + {i};
  }

  lemma ChainCons(deps: Deps, d: Id, c: seq<Id>)
    requires IsChain(deps, c) && d in deps && (c != [] ==> d in deps[c[0]])
    ensures IsChain(deps, [d] + c)
  {
    var c' := [d] + c;
    forall k | 0 < k < |c'| ensures c'[k - 1] in deps[c'[k]] {
      if k > 1 { assert c[k - 2] in deps[c[k - 1]]; }
    }
  }

  /** The search over all ids: accepts exactly the acyclic dependency maps. */
  method Search(deps: Deps) returns (ok: bool, ghost rank: map<Id, nat>)
    requires Known(deps)
    ensures ok <==> !HasCycle(deps)
    ensures ok <==> Acyclic(deps)
    ensures ok ==> Ranked(deps, rank)
  {
    ok, rank := true, map[];
    var rest, visited := deps.Keys, {};
    while rest != {}
      invariant rest <= deps.Keys && deps.Keys - rest <= visited
      invariant Finished(deps, rank) && visited == rank.Keys
      decreases rest
    {
      var i :| i in rest;
      ok, visited, rank := Visit(deps, i, {}, visited, [], rank);
      if !ok {
        assert !Acyclic(deps) by { if Acyclic(deps) { AcyclicMeansNoCycle(deps); } }
        return;
      }
      rest := rest - {i};
    }
    assert Ranked(deps, rank);
    AcyclicMeansNoCycle(deps);
  }

  /** `compile_outcome_graph`: succeeds exactly on the well-formed graphs. */
  method Compile(g: Graph) returns (r: Compilation)
    requires Elements(g.order) == g.byId.Keys
    ensures r.Compiled? <==> WellFormed(g)
    ensures r.DuplicateId? <==> !Distinct(g.order)
    ensures r.MissingSnapshot? <==> Distinct(g.order) && g.baseSnapshot == ""
    ensures r.NoCapacity? <==> Distinct(g.order) && g.baseSnapshot != "" && g.maximumConcurrent < 1
    ensures r.MissingDependency? <==> Described(g) && !Known(DepsOf(g.byId))
    ensures r.CycleFound? <==> Described(g) && Known(DepsOf(g.byId)) && HasCycle(DepsOf(g.byId))
    ensures r.OverlappingWriters? <==> Described(g) && Acyclic(DepsOf(g.byId)) && !WritersOrdered(g.byId)
  {
    if |g.byId.Keys| != |g.order| {
      if Distinct(g.order) { DistinctCardinality(g.order); }
      return DuplicateId;
    }
    CardinalityDistinct(g.order);
    if g.baseSnapshot == "" { return MissingSnapshot; }
    if g.maximumConcurrent < 1 { return NoCapacity; }
    var deps := DepsOf(g.byId);
    if exists p | p in g.byId :: !(g.byId[p].deps <= g.byId.Keys) {
      assert !Known(deps) by {
        var p :| p in g.byId && !(g.byId[p].deps <= g.byId.Keys);
        assert !(deps[p] <= deps.Keys);
      }
      return MissingDependency;
    }
    assert Known(deps);
    var ok, _ := Search(deps);
    if !ok { return CycleFound; }
    if exists a, b | a in g.byId && b in g.byId && a != b && g.byId[a].paths * g.byId[b].paths != {} ::
         b !in g.byId[a].deps && a !in g.byId[b].deps {
      return OverlappingWriters;
    }
    r := Compiled;
  }

  lemma {:induction false} CardinalityDistinct(c: seq<Id>)
    requires |Elements(c)| == |c|
    ensures Distinct(c)
  {
    if c != [] {
      var t := c[1..];
      assert c == [c[0]] + t;
      ElementsCons(c[0], t);
      ElementsBound(t);
      var h := c[0];
      assert h in Elements(t) ==> {h} + Elements(t) == Elements(t);
      CardinalityDistinct(t);
      forall i, j | 0 <= i < j < |c| ensures c[i] != c[j] {
        assert c[j] == t[j - 1];
        if i == 0 { assert t[j - 1] in Elements(t); } else { assert c[i] == t[i - 1]; }
      }
    }
  }

  lemma {:induction false} ElementsBound(c: seq<Id>)
    ensures |Elements(c)| <= |c|
  {
    if c != [] {
      assert c == [c[0]] + c[1..];
      ElementsCons(c[0], c[1..]);
      ElementsBound(c[1..]);
    }
  }
}
