/** The brackets that a closed match protocol admits, and what the two limits mean for them. */
module BracketProtocol {
  import opened Wrappers
  import opened Identifiers
  import opened Matching
  import opened Bracket
  import opened BracketRuns

  const Builders: set<Id> := {"MB0", "MB1", "MB2", "MB3"}
  const Campaigns: set<Id> := {"MC0", "MC1"}
  const Hybrids: set<Id> := {"MH1", "MH2", "MH3", "MH4"}

  const BuilderTrack := "builder-component"
  const CampaignTrack := "whole-campaign"

  /** The entrants of a stage: all originals, all hybrids, or one finalist of either kind. */
  ghost predicate Stage(t: Tournament) {
    || t.entrants == Builders + Campaigns
    || t.entrants == Hybrids
    || exists u, v :: u in Campaigns && v in Hybrids && t.entrants == {u, v}
  }

  /** What `MatchProtocol` and the stage evidence accept. */
  ghost predicate Closed(t: Tournament) {
    && t.maxRounds == 24
    && t.recipes.Keys == Builders + Campaigns + Hybrids
    && (forall v | v in t.recipes :: t.recipes[v].track == if v in Builders then BuilderTrack else CampaignTrack)
    && Stage(t)
  }

  lemma Cardinals()
    ensures |Builders| == 4 && |Campaigns| == 2 && |Hybrids| == 4
  {
    assert "MB0"[2] == '0' && "MB1"[2] == '1' && "MB2"[2] == '2' && "MB3"[2] == '3';
    assert "MC0"[2] == '0' && "MC1"[2] == '1';
    assert "MH1"[2] == '1' && "MH2"[2] == '2' && "MH3"[2] == '3' && "MH4"[2] == '4';
  }

  lemma KindsApart()
    ensures Builders !! Campaigns && Builders !! Hybrids && Campaigns !! Hybrids
    ensures BuilderTrack != CampaignTrack
  {
    assert forall v | v in Builders :: v[1] == 'B';
    assert forall v | v in Campaigns :: v[1] == 'C';
    assert forall v | v in Hybrids :: v[1] == 'H';
    assert BuilderTrack[0] != CampaignTrack[0];
  }

  /** A track has no, two or four active entrants. */
  lemma ActiveCount(t: Tournament)
    requires Closed(t)
    ensures |Active(t)| in {0, 2, 4}
  {
    hide Builders, Campaigns, Hybrids;
    KindsApart();
    Cardinals();
    var a := Active(t);
    if t.entrants == Builders + Campaigns {
      if t.track == BuilderTrack { assert a == Builders; }
      else if t.track == CampaignTrack { assert a == Campaigns; }
      else { assert a == {}; }
    } else if t.entrants == Hybrids {
      if t.track == CampaignTrack { assert a == Hybrids; } else { assert a == {}; }
    } else {
      var u, v :| u in Campaigns && v in Hybrids && t.entrants == {u, v};
      if t.track == CampaignTrack { assert a == {u, v}; } else { assert a == {}; }
    }
  }

  /** No run of a closed protocol gets to its 24th round: the `max_rounds` terminal is unreachable. */
  lemma CapIsUnreachable(t: Tournament, calls: seq<Call>)
    requires Closed(t)
    ensures Run(t, calls).round <= 23
    ensures Run(t, calls).terminal != Some(MaxRounds)
    ensures Schedule(t, Run(t, calls)) != Ended(MaxRounds)
  {
    hide Active, Stage, Run;
    ActiveCount(t);
    RoundsBounded(t, calls);
    var n := |Active(t)|;
    assert n == 0 || n == 2 || n == 4;
    assert n * (n + 2) <= 24;
  }

  /** A new bracket has no bye: it starts with a round whenever two entrants are playable. */
  lemma NewBracketIsNeverStranded(t: Tournament)
    requires Closed(t)
    ensures Schedule(t, Empty).Round? <==> SomePlayable(t, Empty)
  {
    ActiveCount(t);
    hide Closed;
    assert Eligible(t, Empty) == Active(t);
    EvenAlwaysContinues(t, Empty);
  }

  // --- A bracket that a bye strands ---

  /** Four entrants in identifier order, the outer two in one regime and the inner two in another. */
  ghost predicate Nested(t: Tournament, a: Id, b: Id, c: Id, d: Id) {
    && Active(t) == {a, b, c, d} && t.maxRounds == 24
    && a != b && a != c && a != d && b != c && b != d && c != d
    && Leq(a, b) && Leq(b, c) && Leq(c, d)
    && {a, b, c, d} <= t.recipes.Keys && t.recipes[a] == t.recipes[d] && t.recipes[b] == t.recipes[c]
    && t.recipes[a] != t.recipes[b]
  }

  lemma SortStep(key: Id -> int, s: set<Id>, m: Id)
    requires m in s && forall x | x in s :: Before(key, m, x)
    ensures First(key, s) == m && SortBy(key, s) == [m] + SortBy(key, s - {m})
  {
    FirstUnique(key, First(key, s), m, s);
  }

  lemma NestedOrder(t: Tournament, a: Id, b: Id, c: Id, d: Id)
    requires Nested(t, a, b, c, d)
    ensures Leq(a, a) && Leq(b, b) && Leq(c, c) && Leq(d, d) && Leq(a, c) && Leq(a, d) && Leq(b, d)
  {
    LeqTotal(a, a);
    LeqTotal(b, b);
    LeqTotal(c, c);
    LeqTotal(d, d);
    LeqTransitive(a, b, c);
    LeqTransitive(b, c, d);
    LeqTransitive(a, b, d);
  }

  lemma SortCons(key: Id -> int, m: Id, rest: set<Id>, s: set<Id>)
    requires m !in rest && s == {m} + rest && forall x | x in s :: Before(key, m, x)
    ensures First(key, s) == m && SortBy(key, s) == [m] + SortBy(key, rest)
  {
    SortStep(key, s, m);
    assert s - {m} == rest;
  }

  lemma TwoSorted(key: Id -> int, c: Id, d: Id)
    requires c != d && Before(key, c, c) && Before(key, c, d) && Before(key, d, d)
    ensures SortBy(key, {c, d}) == [c, d]
  {
    hide SortBy, First, Before;
    EmptySort(key);
    SortCons(key, d, {}, {d});
    SortCons(key, c, {d}, {c, d});
  }

  lemma ThreeSorted(key: Id -> int, b: Id, c: Id, d: Id)
    requires b != c && b != d && Before(key, b, b) && Before(key, b, c) && Before(key, b, d)
    requires SortBy(key, {c, d}) == [c, d]
    ensures First(key, {b, c, d}) == b && SortBy(key, {b, c, d}) == [b, c, d]
  {
    hide SortBy, First, Before;
    SortCons(key, b, {c, d}, {b, c, d});
  }

  lemma FourSorted(key: Id -> int, a: Id, b: Id, c: Id, d: Id)
    requires a != b && a != c && a != d
    requires Before(key, a, a) && Before(key, a, b) && Before(key, a, c) && Before(key, a, d)
    requires SortBy(key, {b, c, d}) == [b, c, d]
    ensures SortBy(key, {a, b, c, d}) == [a, b, c, d]
  {
    hide SortBy, First, Before;
    SortCons(key, a, {b, c, d}, {a, b, c, d});
  }

  lemma NestedSorted(t: Tournament, a: Id, b: Id, c: Id, d: Id)
    requires Nested(t, a, b, c, d)
    ensures SortBy(Key(map[]), {a, b, c, d}) == [a, b, c, d]
    ensures First(Key(map[]), {b, c, d}) == b
  {
    NestedOrder(t, a, b, c, d);
    hide Leq, SortBy, Active, First;
    var key := Key(map[]);
    TwoSorted(key, c, d);
    ThreeSorted(key, b, c, d);
    FourSorted(key, a, b, c, d);
  }

  lemma EmptySort(key: Id -> int)
    ensures SortBy(key, {}) == []
  {}

  /** A pair may meet iff the regimes agree and it has not met twice without a result. */
  ghost predicate Splits(f: Field, a: Id, b: Id, c: Id, d: Id) {
    && Playable(f, a, d) && Playable(f, b, c)
    && !Playable(f, a, b) && !Playable(f, a, c) && !Playable(f, b, d) && !Playable(f, c, d)
  }

  lemma PairsOfTwo(f: Field, x: Id, y: Id)
    ensures MaximumPairs(f, [x, y]) == if Playable(f, x, y) then [(x, y)] else []
  {
    hide Playable;
    var s, pair := [x, y], [(x, y)];
    assert s[1..] == [y] && Without(s, 1) == [] && pair + [] == pair;
    assert MaximumPairs(f, [y]) == [] && MaximumPairs(f, []) == [];
    assert BestFrom(f, s, 2, []) == [] && BestFrom(f, s, 2, pair) == pair;
  }

  lemma PairsOfThree(f: Field, b: Id, c: Id, d: Id)
    requires Playable(f, b, c) && !Playable(f, b, d) && !Playable(f, c, d)
    ensures MaximumPairs(f, [b, c, d]) == [(b, c)]
  {
    hide Playable;
    PairsOfTwo(f, c, d);
    var s := [b, c, d];
    assert s[1..] == [c, d] && Without(s, 1) == [d];
    assert MaximumPairs(f, [d]) == [] && [(b, c)] + [] == [(b, c)];
    assert BestFrom(f, s, 3, [(b, c)]) == [(b, c)];
    assert BestFrom(f, s, 2, [(b, c)]) == [(b, c)];
    assert BestFrom(f, s, 1, []) == [(b, c)];
  }

  lemma PairsOfFour(f: Field, a: Id, b: Id, c: Id, d: Id)
    requires Splits(f, a, b, c, d)
    ensures MaximumPairs(f, [a, b, c, d]) == [(a, d), (b, c)]
  {
    hide Playable;
    PairsOfTwo(f, b, c);
    PairsOfThree(f, b, c, d);
    var s, one, two := [a, b, c, d], [(b, c)], [(a, d), (b, c)];
    assert s[1..] == [b, c, d] && Without(s, 3) == [b, c];
    assert BestFrom(f, s, 4, two) == two;
    assert [(a, d)] + one == two;
    assert BestFrom(f, s, 3, one) == two;
    assert BestFrom(f, s, 2, one) == two;
    assert BestFrom(f, s, 1, one) == two;
  }

  lemma NestedSplits(t: Tournament, a: Id, b: Id, c: Id, d: Id)
    requires Nested(t, a, b, c, d)
    ensures Splits(FieldOf(t, Empty), a, b, c, d)
  {}

  lemma NestedEligible(t: Tournament, a: Id, b: Id, c: Id, d: Id)
    requires Nested(t, a, b, c, d)
    ensures Eligible(t, Empty) == {a, b, c, d} && |Eligible(t, Empty)| == 4
  {
    assert Eligible(t, Empty) == Active(t);
    hide Active, Leq;
  }

  lemma FirstEntrants(t: Tournament, a: Id, b: Id, c: Id, d: Id)
    requires Nested(t, a, b, c, d)
    ensures Eligible(t, Empty) != {} && ByeOf(t, Empty) == None && Entrants(t, Empty) == [a, b, c, d]
  {
    hide Nested, Eligible, SortBy, Key, First;
    NestedEligible(t, a, b, c, d);
    NestedSorted(t, a, b, c, d);
    EvenEntrants(t, Empty, {a, b, c, d}, [a, b, c, d]);
  }

  lemma EvenEntrants(t: Tournament, b: State, e: set<Id>, s: seq<Id>)
    requires Eligible(t, b) == e != {} && |e| % 2 == 0 && b.round == 0
    requires SortBy(Key(b.losses), e) == s != []
    ensures ByeOf(t, b) == None && Entrants(t, b) == s
  {
    hide Eligible, SortBy, Rotate, Key;
    Unrotated(s);
  }

  lemma OddBye(t: Tournament, b: State, e: set<Id>, m: Id)
    requires Eligible(t, b) == e && |e| % 2 == 1 && First(Key(b.byes), e) == m
    ensures ByeOf(t, b) == Some(m)
  {
    hide Eligible, First, Key;
  }

  lemma Unrotated(s: seq<Id>)
    requires s != []
    ensures Rotate(s, 0) == s
  {}

  lemma TwoMatches(a: Id, b: Id, c: Id, d: Id)
    ensures Items(None, [(a, d), (b, c)]) == [Match(a, d), Match(b, c)]
  {
    var pairs: seq<Pair> := [(a, d), (b, c)];
    assert Items(None, pairs) == Matches(pairs);
  }

  /** The first round pairs the outer two and the inner two. */
  lemma FirstRound(t: Tournament, a: Id, b: Id, c: Id, d: Id)
    requires Nested(t, a, b, c, d)
    ensures Schedule(t, Empty) == Round([Match(a, d), Match(b, c)])
  {
    NestedEligible(t, a, b, c, d);
    FirstEntrants(t, a, b, c, d);
    NestedSplits(t, a, b, c, d);
    PairsOfFour(FieldOf(t, Empty), a, b, c, d);
    TwoMatches(a, b, c, d);
    hide Eligible, Active, MaximumPairs, Splits, Playable, Leq, ByeOf, Entrants, Items;
  }

  /** The outer left entrant is quarantined, and the inner two draw. */
  const FirstResults: seq<Report> := [Report(0, QUARANTINE_LEFT), Report(1, DRAW)]

  function Stranded(a: Id, b: Id, c: Id): State {
    State(1, map[], map[], map[{b, c} := 1], {a}, None)
  }

  lemma FirstEntries(a: Id, b: Id, c: Id, d: Id)
    ensures Covers([Match(a, d), Match(b, c)], FirstResults)
    ensures Entries([Match(a, d), Match(b, c)], FirstResults)
         == [Entry(Match(a, d), QUARANTINE_LEFT), Entry(Match(b, c), DRAW)]
  {}

  lemma FirstApplied(a: Id, b: Id, c: Id, d: Id)
    ensures ApplyAll(Empty, [Entry(Match(a, d), QUARANTINE_LEFT), Entry(Match(b, c), DRAW)])
         == Stranded(a, b, c).(round := 0)
  {
    var first, second := Entry(Match(a, d), QUARANTINE_LEFT), Entry(Match(b, c), DRAW);
    var s := Empty.(quarantined := {a});
    assert [first, second][1..] == [second] && [second][1..] == [];
    assert ApplyOne(Empty, first) == s;
    assert ApplyOne(s, second) == Stranded(a, b, c).(round := 0);
    assert ApplyAll(s, [second]) == ApplyAll(ApplyOne(s, second), []);
  }

  lemma FirstRoundApplied(t: Tournament, a: Id, b: Id, c: Id, d: Id)
    requires Nested(t, a, b, c, d)
    ensures Run(t, [Call(true, FirstResults)]) == Stranded(a, b, c)
  {
    FirstRound(t, a, b, c, d);
    FirstEntries(a, b, c, d);
    FirstApplied(a, b, c, d);
    assert t.maxRounds == 24;
    hide Schedule, Nested, Covers, Entries, ApplyAll, Run;
    OneCall(t, Call(true, FirstResults));
  }

  lemma OneCall(t: Tournament, call: Call)
    ensures Run(t, [call]) == Next(t, Empty, call)
  {
    hide Next;
    assert [call][..0] == [];
    assert Run(t, []) == Empty;
  }

  lemma StrandedEligible(t: Tournament, a: Id, b: Id, c: Id, d: Id)
    requires Nested(t, a, b, c, d)
    ensures Eligible(t, Stranded(a, b, c)) == {b, c, d}
  {
    hide Leq, Active;
  }

  lemma StrandedBye(t: Tournament, a: Id, b: Id, c: Id, d: Id)
    requires Nested(t, a, b, c, d)
    ensures Eligible(t, Stranded(a, b, c)) == {b, c, d} && |Eligible(t, Stranded(a, b, c))| == 3
    ensures ByeOf(t, Stranded(a, b, c)) == Some(b)
  {
    ThreeDistinct(b, c, d);
    hide Nested, SortBy, First, Eligible, Key, ByeOf;
    NestedSorted(t, a, b, c, d);
    StrandedEligible(t, a, b, c, d);
    OddBye(t, Stranded(a, b, c), {b, c, d}, b);
  }

  lemma ThreeDistinct(b: Id, c: Id, d: Id)
    requires b != c && b != d && c != d
    ensures |{b, c, d}| == 3
  {}

  lemma StrandedCannotPair(t: Tournament, a: Id, b: Id, c: Id, d: Id)
    requires Nested(t, a, b, c, d)
    ensures !CanPair(t, Stranded(a, b, c)) && Playable(FieldOf(t, Stranded(a, b, c)), b, c)
  {
    StrandedBye(t, a, b, c, d);
    hide Leq, Eligible, ByeOf, Active;
    assert {b, c, d} - {b} == {c, d};
  }

  /** Then the next in line takes the bye, the other two may not meet, and the bracket is over. */
  lemma SecondRoundEnds(t: Tournament, a: Id, b: Id, c: Id, d: Id)
    requires Nested(t, a, b, c, d)
    ensures Schedule(t, Stranded(a, b, c)) == Ended(NoSchedulablePairs)
  {
    StrandedBye(t, a, b, c, d);
    StrandedCannotPair(t, a, b, c, d);
    var s := Stranded(a, b, c);
    assert RefersOnlyTo(s, Active(t));
    ContinuesExactlyWhenPlayable(t, s);
    hide Eligible, Active, CanPair, MaximumPairs, ByeOf, Entrants, Leq;
  }

  // --- Such a bracket in a closed protocol ---

  function Regime(v: Id): string {
    if v == "MB1" || v == "MB2" then "inner" else "outer"
  }

  /** The builder track of the original stage, with the regimes nested. */
  const Quartet: Tournament :=
    Tournament(
      map v | v in Builders + Campaigns + Hybrids ::
        Recipe(if v in Builders then BuilderTrack else CampaignTrack, Regime(v)),
      Builders + Campaigns, BuilderTrack, 24)

  lemma QuartetIsClosed()
    ensures Closed(Quartet) && Active(Quartet) == Builders
  {
    KindsApart();
    hide Builders, Campaigns, Hybrids;
  }

  lemma BuildersInOrder()
    ensures "MB0" != "MB1" && "MB0" != "MB2" && "MB0" != "MB3" && "MB1" != "MB2" && "MB1" != "MB3" && "MB2" != "MB3"
    ensures Leq("MB0", "MB1") && Leq("MB1", "MB2") && Leq("MB2", "MB3")
  {
    assert "MB0"[2] == '0' && "MB1"[2] == '1' && "MB2"[2] == '2' && "MB3"[2] == '3';
    LastDecides("MB0", "MB1");
    LastDecides("MB1", "MB2");
    LastDecides("MB2", "MB3");
  }

  lemma {:induction false} LastDecides(x: Id, y: Id)
    requires |x| == |y| >= 1 && x[..|x| - 1] == y[..|x| - 1] && x[|x| - 1] < y[|x| - 1]
    ensures Leq(x, y)
    decreases |x|
  {
    if |x| > 1 {
      assert x[0] == x[..|x| - 1][0] && y[0] == y[..|x| - 1][0];
      var u, v := x[1..], y[1..];
      assert u[..|u| - 1] == x[..|x| - 1][1..] && v[..|u| - 1] == y[..|x| - 1][1..];
      LastDecides(u, v);
    }
  }

  lemma QuartetIsNested()
    ensures Nested(Quartet, "MB0", "MB1", "MB2", "MB3")
  {
    QuartetIsClosed();
    BuildersInOrder();
    hide Leq, Active, Closed;
    assert Quartet.recipes["MB0"].regime == "outer" && Quartet.recipes["MB1"].regime == "inner";
    assert "outer"[0] != "inner"[0];
  }

  /**
   The bye is fixed before the pairing, so a bracket can end while two entrants could still meet:
   after one round of a closed protocol MB1 takes the bye, MB2 and MB3 may not meet, and the
   bracket is over although MB1 and MB2 have met only once.
   */
  lemma ByeCanStrandAPlayablePair()
    ensures Closed(Quartet)
    ensures var b := Run(Quartet, [Call(true, FirstResults)]);
            && b.round == 1 && b.terminal == None
            && {"MB1", "MB2"} <= Eligible(Quartet, b) && Playable(FieldOf(Quartet, b), "MB1", "MB2")
            && Schedule(Quartet, b) == Ended(NoSchedulablePairs)
  {
    hide Closed, Nested, Eligible, Playable, Schedule, Run, CanPair, ByeOf;
    QuartetIsClosed();
    QuartetIsNested();
    FirstRoundApplied(Quartet, "MB0", "MB1", "MB2", "MB3");
    StrandedBye(Quartet, "MB0", "MB1", "MB2", "MB3");
    StrandedCannotPair(Quartet, "MB0", "MB1", "MB2", "MB3");
    SecondRoundEnds(Quartet, "MB0", "MB1", "MB2", "MB3");
  }
}
