/** What a bracket's decisions mean for its entrants. */
module BracketMeaning {
  import opened Wrappers
  import opened Identifiers
  import opened Matching
  import opened Bracket
  import opened BracketRuns

  // --- Who may meet, and who meets first ---

  /** Two entrants may meet exactly when track and regime agree and they have met without a result less than twice. */
  lemma PlayableExactly(f: Field, a: Id, b: Id)
    ensures Playable(f, a, b) <==>
              && a in f.recipes && b in f.recipes
              && f.recipes[a].track == f.recipes[b].track && f.recipes[a].regime == f.recipes[b].regime
              && ({a, b} in f.inconclusive ==> f.inconclusive[{a, b}] < 2)
  {}

  /** How many pairs there can be if the first entrant meets number `k`; none if they may not meet. */
  ghost function Size(f: Field, ordered: seq<Id>, k: nat): nat
    requires 0 < k < |ordered|
  {
    if Playable(f, ordered[0], ordered[k]) then 1 + |MaximumPairs(f, Without(ordered, k))| else 0
  }

  /** The first of the partners from `index` on that give the most pairs. */
  ghost predicate FirstBest(f: Field, ordered: seq<Id>, index: nat, k: nat)
    requires 0 < index <= k < |ordered|
  {
    && (forall i | index <= i < |ordered| :: Size(f, ordered, i) <= Size(f, ordered, k))
    && (forall i | index <= i < k :: Size(f, ordered, i) < Size(f, ordered, k))
  }

  /** The pairing is `best` if no partner gives more, and otherwise takes the first best partner. */
  ghost predicate Prefers(f: Field, ordered: seq<Id>, index: nat, best: seq<Pair>, r: seq<Pair>)
    requires 1 <= index <= |ordered|
  {
    if forall k | index <= k < |ordered| :: Size(f, ordered, k) <= |best| then r == best
    else exists k: nat | index <= k < |ordered| ::
           FirstBest(f, ordered, index, k) && r == [(ordered[0], ordered[k])] + MaximumPairs(f, Without(ordered, k))
  }

  lemma PrefersStep(f: Field, ordered: seq<Id>, index: nat, best: seq<Pair>, next: seq<Pair>, r: seq<Pair>)
    requires 1 <= index < |ordered| && Prefers(f, ordered, index + 1, next, r)
    requires if Size(f, ordered, index) > |best|
             then next == [(ordered[0], ordered[index])] + MaximumPairs(f, Without(ordered, index)) && |next| == Size(f, ordered, index)
             else next == best
    ensures Prefers(f, ordered, index, best, r)
  {
    hide Size;
    if forall k | index + 1 <= k < |ordered| :: Size(f, ordered, k) <= |next| {
      if Size(f, ordered, index) > |best| { assert FirstBest(f, ordered, index, index); }
    } else {
      var k: nat :| index + 1 <= k < |ordered| && FirstBest(f, ordered, index + 1, k)
                    && r == [(ordered[0], ordered[k])] + MaximumPairs(f, Without(ordered, k));
      assert FirstBest(f, ordered, index, k);
      var m: nat :| index + 1 <= m < |ordered| && Size(f, ordered, m) > |next|;
      assert Size(f, ordered, m) <= Size(f, ordered, k);
    }
  }

  lemma {:induction false} BestFromPrefers(f: Field, ordered: seq<Id>, index: nat, best: seq<Pair>)
    requires 1 <= index <= |ordered|
    ensures Prefers(f, ordered, index, best, BestFrom(f, ordered, index, best))
    decreases |ordered| - index
  {
    hide Playable, Prefers;
    if index < |ordered| {
      var candidate := [(ordered[0], ordered[index])] + MaximumPairs(f, Without(ordered, index));
      var next := if Playable(f, ordered[0], ordered[index]) && |candidate| > |best| then candidate else best;
      BestFromPrefers(f, ordered, index + 1, next);
      PrefersStep(f, ordered, index, best, next, BestFrom(f, ordered, index + 1, next));
    } else {
      PrefersBest(f, ordered, best);
    }
  }

  lemma PrefersBest(f: Field, ordered: seq<Id>, best: seq<Pair>)
    requires ordered != []
    ensures Prefers(f, ordered, |ordered|, best, best)
  {}

  /** Among the largest pairings: leave the first entrant out if that costs nothing, or else give it the earliest partner. */
  lemma PairingPrefers(f: Field, ordered: seq<Id>)
    requires |ordered| >= 2
    ensures Prefers(f, ordered, 1, MaximumPairs(f, ordered[1..]), MaximumPairs(f, ordered))
  {
    hide Prefers;
    BestFromPrefers(f, ordered, 1, MaximumPairs(f, ordered[1..]));
  }

  // --- Who is still in, and who rests ---

  /** After any calls an entrant is eligible exactly while no result has expelled it and fewer than three have beaten it. */
  lemma EligibleExactly(t: Tournament, calls: seq<Call>, v: Id)
    ensures v in Eligible(t, Run(t, calls)) <==>
              && v in t.entrants && v in t.recipes && t.recipes[v].track == t.track
              && Count(History(t, calls), ExpelledBy(v)) == 0 && Count(History(t, calls), LostBy(v)) < 3
  {
    hide Sound, Conserved, Fair, Count, Run, History, LostBy, ExpelledBy, RestedBy, MetBy;
    RunInvariant(t, calls);
  }

  /** There is a bye exactly for an odd field; it goes to the fewest byes, then the earliest identifier. */
  lemma ByeExactly(t: Tournament, b: State, u: Id)
    ensures ByeOf(t, b).Some? <==> |Eligible(t, b)| % 2 == 1
    ensures ByeOf(t, b).Some? && u in Eligible(t, b) ==>
              var v := ByeOf(t, b).value;
              v in Eligible(t, b) && (Get(b.byes, v) < Get(b.byes, u) || (Get(b.byes, v) == Get(b.byes, u) && Leq(v, u)))
  {
    hide Eligible;
    if ByeOf(t, b).Some? && u in Eligible(t, b) { assert Before(Key(b.byes), ByeOf(t, b).value, u); }
  }

  // --- What scheduling decides ---

  /** Some record of the bracket is about `v`. */
  ghost predicate Mentions(b: State, v: Id) {
    v in b.losses || v in b.byes || v in b.quarantined || exists k | k in b.inconclusive :: v in k
  }

  /** A bracket is refused exactly when a record is about somebody who is not an active entrant. */
  lemma RefusedExactly(t: Tournament, b: State)
    ensures Schedule(t, b).Refused? <==> exists v :: Mentions(b, v) && v !in Active(t)
  {
    hide Eligible, Entrants, MaximumPairs, Items, Active;
    if !RefersOnlyTo(b, Active(t)) {
      if k :| k in b.inconclusive && !(k <= Active(t)) {
        var v :| v in k && v !in Active(t);
        assert Mentions(b, v);
      } else {
        var v :| (v in b.losses || v in b.byes || v in b.quarantined) && v !in Active(t);
        assert Mentions(b, v);
      }
    }
  }

  /** Which plan is made: refused for outsiders, ended for the first of the four reasons, or a round. */
  lemma ScheduleExactly(t: Tournament, b: State)
    ensures Schedule(t, b).Refused? <==> !RefersOnlyTo(b, Active(t))
    ensures RefersOnlyTo(b, Active(t)) ==>
              if b.terminal.Some? then Schedule(t, b) == Ended(b.terminal.value)
              else if b.round >= t.maxRounds then Schedule(t, b) == Ended(MaxRounds)
              else if |Eligible(t, b)| == 1 then Schedule(t, b) == Ended(OneSurvivor)
              else if !CanPair(t, b) then Schedule(t, b) == Ended(NoSchedulablePairs)
              else Schedule(t, b).Round?
  {
    if RefersOnlyTo(b, Active(t)) && b.terminal == None && b.round < t.maxRounds { ContinuesExactlyWhenPlayable(t, b); }
    hide CanPair, Eligible, RefersOnlyTo, Entrants, MaximumPairs, Items;
  }

  /** An issued round holds as many pairs as any matching of the eligible without the bye. */
  lemma RoundIsMaximal(t: Tournament, b: State, items: seq<Item>, m: seq<Pair>)
    requires Schedule(t, b) == Round(items) && IsMatching(FieldOf(t, b), Eligible(t, b) - ByeSet(ByeOf(t, b)), m)
    ensures |items| >= |m| + |ByeSet(ByeOf(t, b))|
  {
    EntrantsAre(t, b);
    MaximumPairsIsMaximum(FieldOf(t, b), Entrants(t, b), m);
    hide IsMatching, Eligible, Entrants, MaximumPairs, RefersOnlyTo;
  }

  // --- What a call decides ---

  /** A played round counts one, and ends the bracket exactly when the cap is reached; no other call changes the books. */
  lemma CallExactly(t: Tournament, b: State, c: Call)
    ensures PlaysRound(t, b, c) ==>
              var n := Next(t, b, c);
              n.round == b.round + 1 && n.terminal == if n.round >= t.maxRounds then Some(MaxRounds) else None
    ensures !PlaysRound(t, b, c) ==> Next(t, b, c) == b.(terminal := Next(t, b, c).terminal)
    ensures !PlaysRound(t, b, c) ==>
              Next(t, b, c).terminal ==
                if !c.live then (if c.reports == [] then Some(LeaseExhausted) else b.terminal)
                else if Schedule(t, b).Ended? then Some(Schedule(t, b).reason) else b.terminal
    ensures Step(t, b, c.live, c.reports).raised <==>
              !PlaysRound(t, b, c) && (Schedule(t, b).Ended? || !c.live ==> c.reports != [])
  {
    if PlaysRound(t, b, c) { ApplyAllEligible(t, b, Entries(Schedule(t, b).items, c.reports)); }
    hide Schedule, ApplyAll, Covers;
  }
}
