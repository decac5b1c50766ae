/** The pairing of a bracket round: as many compatible pairs as possible. */
module Matching {
  import opened Identifiers

  datatype Recipe = Recipe(track: string, regime: string)

  type Pair = (Id, Id)

  /** Who may meet whom: recipes by entrant, and inconclusive meetings so far by unordered pair. */
  datatype Field = Field(recipes: map<Id, Recipe>, inconclusive: map<set<Id>, nat>)

  predicate Compatible(f: Field, a: Id, b: Id) {
    a in f.recipes && b in f.recipes && f.recipes[a] == f.recipes[b]
  }

  function Meetings(inconclusive: map<set<Id>, nat>, a: Id, b: Id): nat {
    if {a, b} in inconclusive then inconclusive[{a, b}] else 0
  }

  predicate Playable(f: Field, a: Id, b: Id) {
    Meetings(f.inconclusive, a, b) < 2 && Compatible(f, a, b)
  }

  lemma PlayableSymmetric(f: Field, a: Id, b: Id)
    ensures Playable(f, a, b) == Playable(f, b, a)
  {
    assert {a, b} == {b, a};
  }

  function Without(s: seq<Id>, i: nat): seq<Id>
    requires 0 < i < |s|
  {
    s[1..i] + s[i + 1..]
  }

  /** `_maximum_pairs` */
  function MaximumPairs(f: Field, ordered: seq<Id>): seq<Pair>
    decreases |ordered|, 0
  {
    if |ordered| < 2 then [] else BestFrom(f, ordered, 1, MaximumPairs(f, ordered[1..]))
  }

  /** The rest of its loop: partners from `index` on, against the best pairing so far. */
  function BestFrom(f: Field, ordered: seq<Id>, index: nat, best: seq<Pair>): seq<Pair>
    requires 1 <= index <= |ordered|
    decreases |ordered| - 1, |ordered| - index + 1
  {
    if index == |ordered| then best
    else if !Playable(f, ordered[0], ordered[index]) then BestFrom(f, ordered, index + 1, best)
    else
      var candidate := [(ordered[0], ordered[index])] + MaximumPairs(f, Without(ordered, index));
      BestFrom(f, ordered, index + 1, if |candidate| > |best| then candidate else best)
  }

  /** The source's loop. */
  method PairUp(f: Field, ordered: seq<Id>) returns (best: seq<Pair>)
    ensures best == MaximumPairs(f, ordered)
    decreases |ordered|
  {
    if |ordered| < 2 {
      return [];
    }
    best := PairUp(f, ordered[1..]);
    var index := 1;
    while index < |ordered|
      invariant 1 <= index <= |ordered|
      invariant BestFrom(f, ordered, index, best) == MaximumPairs(f, ordered)
    {
      if Playable(f, ordered[0], ordered[index]) {
        var rest := PairUp(f, Without(ordered, index));
        var candidate := [(ordered[0], ordered[index])] + rest;
        if |candidate| > |best| {
          best := candidate;
        }
      }
      index := index + 1;
    }
  }

  // --- Matchings ---

  ghost predicate PairIn(f: Field, s: set<Id>, p: Pair) {
    p.0 in s && p.1 in s && p.0 != p.1 && Playable(f, p.0, p.1)
  }

  ghost predicate Apart(p: Pair, q: Pair) {
    p.0 != q.0 && p.0 != q.1 && p.1 != q.0 && p.1 != q.1
  }

  /** Playable pairs of members of `s`, no member twice. */
  ghost predicate IsMatching(f: Field, s: set<Id>, m: seq<Pair>) {
    && (forall i | 0 <= i < |m| :: PairIn(f, s, m[i]))
    && (forall i, j | 0 <= i < j < |m| :: Apart(m[i], m[j]))
  }

  lemma MatchingGrows(f: Field, s: set<Id>, t: set<Id>, m: seq<Pair>)
    requires IsMatching(f, s, m) && s <= t
    ensures IsMatching(f, t, m)
  {
    forall i | 0 <= i < |m| ensures PairIn(f, t, m[i]) { assert PairIn(f, s, m[i]); }
  }

  lemma MatchingAdds(f: Field, s: set<Id>, p: Pair, m: seq<Pair>)
    requires PairIn(f, s, p) && IsMatching(f, s - {p.0, p.1}, m)
    ensures IsMatching(f, s, [p] + m)
  {
    var n := [p] + m;
    forall i | 0 <= i < |n| ensures PairIn(f, s, n[i]) {
      if i > 0 { assert PairIn(f, s - {p.0, p.1}, m[i - 1]); }
    }
    forall i, j | 0 <= i < j < |n| ensures Apart(n[i], n[j]) {
      if i == 0 { assert PairIn(f, s - {p.0, p.1}, m[j - 1]); } else { assert Apart(m[i - 1], m[j - 1]); }
    }
  }

  lemma WithoutElements(s: seq<Id>, i: nat)
    requires Distinct(s) && 0 < i < |s|
    ensures Distinct(Without(s, i)) && Elements(Without(s, i)) == Elements(s) - {s[0], s[i]}
  {
    var w := Without(s, i);
    assert forall k | 0 <= k < |w| :: w[k] == s[if k < i - 1 then k + 1 else k + 2];
    forall x | x in Elements(s) && x != s[0] && x != s[i] ensures x in Elements(w) {
      var k :| 0 <= k < |s| && s[k] == x;
      assert w[if k < i then k - 1 else k - 2] == x;
    }
  }

  lemma TailElements(s: seq<Id>)
    requires Distinct(s) && s != []
    ensures Distinct(s[1..]) && Elements(s[1..]) == Elements(s) - {s[0]}
  {
    assert s == [s[0]] + s[1..];
    ElementsCons(s[0], s[1..]);
    assert forall i | 0 <= i < |s| - 1 :: s[1..][i] == s[i + 1];
    assert s[0] !in Elements(s[1..]);
  }

  lemma {:induction false} MaximumPairsIsMatching(f: Field, ordered: seq<Id>)
    requires Distinct(ordered)
    ensures IsMatching(f, Elements(ordered), MaximumPairs(f, ordered))
    decreases |ordered|, 0
  {
    if |ordered| >= 2 {
      TailElements(ordered);
      MaximumPairsIsMatching(f, ordered[1..]);
      MatchingGrows(f, Elements(ordered[1..]), Elements(ordered), MaximumPairs(f, ordered[1..]));
      BestFromIsMatching(f, ordered, 1, MaximumPairs(f, ordered[1..]));
    }
  }

  lemma {:induction false} BestFromIsMatching(f: Field, ordered: seq<Id>, index: nat, best: seq<Pair>)
    requires Distinct(ordered) && 1 <= index <= |ordered| && IsMatching(f, Elements(ordered), best)
    ensures IsMatching(f, Elements(ordered), BestFrom(f, ordered, index, best))
    decreases |ordered| - 1, |ordered| - index + 1
  {
    if index < |ordered| {
      if Playable(f, ordered[0], ordered[index]) {
        var p := (ordered[0], ordered[index]);
        WithoutElements(ordered, index);
        MaximumPairsIsMatching(f, Without(ordered, index));
        assert p.0 in Elements(ordered) && p.1 in Elements(ordered);
        MatchingAdds(f, Elements(ordered), p, MaximumPairs(f, Without(ordered, index)));
        var candidate := [p] + MaximumPairs(f, Without(ordered, index));
        BestFromIsMatching(f, ordered, index + 1, if |candidate| > |best| then candidate else best);
      } else {
        BestFromIsMatching(f, ordered, index + 1, best);
      }
    }
  }

  // --- Maximality ---

  /** The loop ends with at least the best so far, and at least every partner's candidate. */
  lemma {:induction false} BestFromIsBest(f: Field, ordered: seq<Id>, index: nat, best: seq<Pair>, k: nat)
    requires 1 <= index <= |ordered|
    ensures |BestFrom(f, ordered, index, best)| >= |best|
    ensures index <= k < |ordered| && Playable(f, ordered[0], ordered[k]) ==>
              |BestFrom(f, ordered, index, best)| >= 1 + |MaximumPairs(f, Without(ordered, k))|
    decreases |ordered| - index
  {
    if index < |ordered| {
      if Playable(f, ordered[0], ordered[index]) {
        var candidate := [(ordered[0], ordered[index])] + MaximumPairs(f, Without(ordered, index));
        BestFromIsBest(f, ordered, index + 1, if |candidate| > |best| then candidate else best, k);
      } else {
        BestFromIsBest(f, ordered, index + 1, best, k);
      }
    }
  }

  function Drop(m: seq<Pair>, k: nat): seq<Pair>
    requires k < |m|
  {
    m[..k] + m[k + 1..]
  }

  lemma DropMatching(f: Field, s: set<Id>, m: seq<Pair>, k: nat)
    requires IsMatching(f, s, m) && k < |m|
    ensures IsMatching(f, s - {m[k].0, m[k].1}, Drop(m, k))
  {
    var n := Drop(m, k);
    forall i | 0 <= i < |n| ensures PairIn(f, s - {m[k].0, m[k].1}, n[i]) {
      var o := if i < k then i else i + 1;
      assert n[i] == m[o] && PairIn(f, s, m[o]);
      if o < k { assert Apart(m[o], m[k]); } else { assert Apart(m[k], m[o]); }
    }
    forall i, j | 0 <= i < j < |n| ensures Apart(n[i], n[j]) {
      assert Apart(m[if i < k then i else i + 1], m[if j < k then j else j + 1]);
    }
  }

  lemma UnusedMatching(f: Field, s: set<Id>, m: seq<Pair>, x: Id)
    requires IsMatching(f, s, m) && forall i | 0 <= i < |m| :: m[i].0 != x && m[i].1 != x
    ensures IsMatching(f, s - {x}, m)
  {
    forall i | 0 <= i < |m| ensures PairIn(f, s - {x}, m[i]) { assert PairIn(f, s, m[i]); }
  }

  lemma TooFewToPair(f: Field, ordered: seq<Id>, m: seq<Pair>)
    requires |ordered| < 2 && IsMatching(f, Elements(ordered), m)
    ensures m == []
  {
    assert m != [] ==> PairIn(f, Elements(ordered), m[0]);
  }

  /** If the first entrant is matched, the rest is a matching without it and its partner. */
  lemma PartnerOfFirst(f: Field, ordered: seq<Id>, m: seq<Pair>, k: nat) returns (index: nat)
    requires Distinct(ordered) && ordered != [] && IsMatching(f, Elements(ordered), m)
    requires k < |m| && (m[k].0 == ordered[0] || m[k].1 == ordered[0])
    ensures 0 < index < |ordered| && Playable(f, ordered[0], ordered[index])
    ensures Distinct(Without(ordered, index)) && IsMatching(f, Elements(Without(ordered, index)), Drop(m, k))
  {
    assert PairIn(f, Elements(ordered), m[k]);
    var partner := if m[k].0 == ordered[0] then m[k].1 else m[k].0;
    index :| 0 <= index < |ordered| && ordered[index] == partner;
    PlayableSymmetric(f, m[k].0, m[k].1);
    DropMatching(f, Elements(ordered), m, k);
    WithoutElements(ordered, index);
    assert Elements(ordered) - {m[k].0, m[k].1} == Elements(Without(ordered, index));
  }

  /** No matching of the same entrants is larger. */
  lemma {:induction false} MaximumPairsIsMaximum(f: Field, ordered: seq<Id>, m: seq<Pair>)
    requires Distinct(ordered) && IsMatching(f, Elements(ordered), m)
    ensures |m| <= |MaximumPairs(f, ordered)|
    decreases |ordered|
  {
    if |ordered| < 2 {
      TooFewToPair(f, ordered, m);
    } else if exists i | 0 <= i < |m| :: m[i].0 == ordered[0] || m[i].1 == ordered[0] {
      var k :| 0 <= k < |m| && (m[k].0 == ordered[0] || m[k].1 == ordered[0]);
      var index := PartnerOfFirst(f, ordered, m, k);
      MaximumPairsIsMaximum(f, Without(ordered, index), Drop(m, k));
      BestFromIsBest(f, ordered, 1, MaximumPairs(f, ordered[1..]), index);
    } else {
      TailElements(ordered);
      UnusedMatching(f, Elements(ordered), m, ordered[0]);
      MaximumPairsIsMaximum(f, ordered[1..], m);
      BestFromIsBest(f, ordered, 1, MaximumPairs(f, ordered[1..]), 0);
    }
  }

  /** A pairing is empty exactly when no two of the entrants may meet. */
  lemma PairsExactlyWhenPlayable(f: Field, ordered: seq<Id>)
    requires Distinct(ordered)
    ensures MaximumPairs(f, ordered) != [] <==> exists p :: PairIn(f, Elements(ordered), p)
  {
    MaximumPairsIsMatching(f, ordered);
    if MaximumPairs(f, ordered) != [] {
      assert PairIn(f, Elements(ordered), MaximumPairs(f, ordered)[0]);
    }
    if p :| PairIn(f, Elements(ordered), p) {
      assert IsMatching(f, Elements(ordered), [p]);
      MaximumPairsIsMaximum(f, ordered, [p]);
    }
  }
}
