/**
 The dependency admission loop of a campaign mission: packages without outstanding
 dependencies are deleted round by round, and a round that deletes nothing is a cycle.
 */
module CampaignContracts {
  import opened Identifiers
  import opened Dependencies

  datatype Admission = Admitted | UnknownDependency | CycleFound

  function Ready(pending: Deps): set<Id> {
    set p | p in pending && pending[p] == {}
  }

  /** One round: the ready packages are deleted and struck from the other dependency sets. */
  function Peel(pending: Deps): Deps {
    var ready := Ready(pending);
    map p | p in pending && p !in ready :: pending[p] - ready
  }

  /** After some rounds: what is left, and the round in which each other package went. */
  ghost predicate Peeled(deps: Deps, pending: Deps, rank: map<Id, nat>, round: nat) {
    && rank.Keys == deps.Keys - pending.Keys
    && pending.Keys <= deps.Keys
    && (forall p | p in pending :: pending[p] == deps[p] * pending.Keys)
    && (forall p | p in rank :: rank[p] < round)
    && (forall p, d | p in rank && d in deps[p] :: d in rank && rank[d] < rank[p])
  }

  ghost function RankRound(pending: Deps, rank: map<Id, nat>, round: nat): map<Id, nat> {
    rank + map p | p in Ready(pending) :: round
  }

  lemma PeelKeepsOutstanding(deps: Deps, pending: Deps, p: Id)
    requires pending.Keys <= deps.Keys && p in Peel(pending)
    requires pending[p] == deps[p] * pending.Keys
    ensures Peel(pending)[p] == deps[p] * Peel(pending).Keys
  {
    assert Peel(pending).Keys == pending.Keys - Ready(pending);
  }

  lemma PeelKeepsRank(deps: Deps, pending: Deps, rank: map<Id, nat>, round: nat, p: Id, d: Id)
    requires Known(deps) && Peeled(deps, pending, rank, round)
    requires p in RankRound(pending, rank, round) && d in deps[p]
    ensures d in RankRound(pending, rank, round)
    ensures RankRound(pending, rank, round)[d] < RankRound(pending, rank, round)[p]
  {
    if p in Ready(pending) {
      assert d !in deps[p] * pending.Keys;
      assert d in rank;
    } else {
      assert p in rank;
    }
  }

  lemma PeelKeys(deps: Deps, pending: Deps, rank: map<Id, nat>, round: nat)
    requires Peeled(deps, pending, rank, round)
    ensures Peel(pending).Keys == pending.Keys - Ready(pending)
    ensures RankRound(pending, rank, round).Keys == deps.Keys - Peel(pending).Keys
    ensures forall p | p in RankRound(pending, rank, round) :: RankRound(pending, rank, round)[p] < round + 1
  {
    assert Peel(pending).Keys == pending.Keys - Ready(pending);
    assert RankRound(pending, rank, round).Keys == rank.Keys + Ready(pending);
  }

  lemma PeelKeepsPeeled(deps: Deps, pending: Deps, rank: map<Id, nat>, round: nat)
    requires Known(deps) && Peeled(deps, pending, rank, round)
    ensures Peeled(deps, Peel(pending), RankRound(pending, rank, round), round + 1)
    ensures Peel(pending).Keys == pending.Keys - Ready(pending)
  {
    var next, rank' := Peel(pending), RankRound(pending, rank, round);
    hide Peel, RankRound, Ready;
    PeelKeys(deps, pending, rank, round);
    forall p | p in next ensures next[p] == deps[p] * next.Keys {
      PeelKeepsOutstanding(deps, pending, p);
    }
    forall p, d | p in rank' && d in deps[p] ensures d in rank' && rank'[d] < rank'[p] {
      PeelKeepsRank(deps, pending, rank, round, p, d);
    }
  }

  lemma NothingReadyIsStuck(deps: Deps, pending: Deps, rank: map<Id, nat>, round: nat)
    requires Peeled(deps, pending, rank, round)
    requires pending.Keys != {} && Ready(pending) == {}
    ensures Stuck(deps, pending.Keys)
  {
    forall p | p in pending ensures deps[p] * pending.Keys != {} {
      assert p !in Ready(pending);
    }
  }

  /**
   Accepts exactly the dependency maps without a cycle. `rank` numbers the rounds in which
   packages were deleted; `stuck` is what was left when nothing could be deleted.
   */
  method AdmitDependencies(deps: Deps) returns (r: Admission, ghost rank: map<Id, nat>, ghost stuck: set<Id>)
    ensures r.UnknownDependency? <==> !Known(deps)
    ensures r.Admitted? <==> Known(deps) && !HasCycle(deps)
    ensures r.Admitted? <==> Acyclic(deps)
    ensures r.Admitted? ==> Ranked(deps, rank)
    ensures r.CycleFound? ==> Stuck(deps, stuck)
  {
    rank, stuck := map[], {};
    if exists p | p in deps :: !(deps[p] <= deps.Keys) {
      return UnknownDependency, rank, stuck;
    }
    var pending := deps;
    ghost var round := 0;
    while pending.Keys != {}
      invariant Peeled(deps, pending, rank, round)
      decreases |pending.Keys|
    {
      var ready := Ready(pending);
      if ready == {} {
        stuck := pending.Keys;
        NothingReadyIsStuck(deps, pending, rank, round);
        StuckHasCycle(deps, stuck);
        assert !Acyclic(deps) by { if Acyclic(deps) { AcyclicMeansNoCycle(deps); } }
        return CycleFound, rank, stuck;
      }
      PeelKeepsPeeled(deps, pending, rank, round);
      SubsetCardinality(Peel(pending).Keys, pending.Keys);
      rank := RankRound(pending, rank, round);
      pending := Peel(pending);
      round := round + 1;
    }
    assert Ranked(deps, rank);
    AcyclicMeansNoCycle(deps);
    r := Admitted;
  }
}
