/** What holds of a bracket after any sequence of calls. */
module BracketRuns {
  import opened Wrappers
  import opened Identifiers
  import opened Dependencies
  import opened Sums
  import opened Matching
  import opened Bracket

  // --- What a scheduled round contains ---

  function Players(item: Item): set<Id> {
    match item
    case Bye(left) => {left}
    case Match(left, right) => {left, right}
  }

  /** The entry can be applied: its players are still in, and their pairing is not exhausted. */
  ghost predicate Ready(t: Tournament, b: State, e: Entry) {
    && Players(e.item) <= Eligible(t, b)
    && (e.item.Bye? <==> e.outcome.BYE?)
    && (e.item.Match? ==> e.item.left != e.item.right && Meetings(b.inconclusive, e.item.left, e.item.right) < 2)
  }

  /** Results still to be applied in a round: each ready, no player in two of them. */
  ghost predicate Pending(t: Tournament, b: State, entries: seq<Entry>) {
    && (forall i | 0 <= i < |entries| :: Ready(t, b, entries[i]))
    && (forall i, j | 0 <= i < j < |entries| :: Players(entries[i].item) !! Players(entries[j].item))
  }

  lemma {:induction false} RemoveKeeps(s: seq<Id>, x: Id)
    requires Distinct(s)
    ensures Distinct(Remove(s, x)) && Elements(Remove(s, x)) == Elements(s) - {x}
  {
    if s != [] {
      TailElements(s);
      assert s == [s[0]] + s[1..];
      ElementsCons(s[0], s[1..]);
      if s[0] != x {
        RemoveKeeps(s[1..], x);
        var r := Remove(s[1..], x);
        ElementsCons(s[0], r);
        assert s[0] !in Elements(r);
      }
    }
  }

  lemma RotateKeeps(s: seq<Id>, k: nat)
    requires Distinct(s) && s != []
    ensures Distinct(Rotate(s, k)) && Elements(Rotate(s, k)) == Elements(s)
  {
    var n := k % |s|;
    var r := Rotate(s, k);
    assert forall i | 0 <= i < |s| :: r[i] == s[if i < |s| - n then i + n else i - (|s| - n)];
    forall x | x in Elements(s) ensures x in Elements(r) {
      var i :| 0 <= i < |s| && s[i] == x;
      assert r[if i >= n then i - n else i + (|s| - n)] == x;
    }
  }

  /** The place in the sorted list that comes `i`th when counting starts `k` places on and wraps round. */
  function Place(n: nat, k: nat, i: nat): (r: nat)
    requires i < n
    ensures r < n
  {
    if i + k % n < n then i + k % n else i + k % n - n
  }

  lemma RotateAt(s: seq<Id>, k: nat, i: nat)
    requires i < |s|
    ensures |Rotate(s, k)| == |s| && Rotate(s, k)[i] == s[Place(|s|, k, i)]
  {}

  /** Entrants are taken by losses, then identifier, starting `round` places on and wrapping round. */
  lemma OrderedByLosses(t: Tournament, b: State, i: nat, j: nat)
    requires i < |Eligible(t, b)| && j < |Eligible(t, b)|
    ensures |Ordered(t, b)| == |Eligible(t, b)|
    ensures Place(|Eligible(t, b)|, b.round, i) < Place(|Eligible(t, b)|, b.round, j) ==>
              Before(Key(b.losses), Ordered(t, b)[i], Ordered(t, b)[j])
  {
    hide Eligible, Rotate, Place;
    var e := Eligible(t, b);
    var s := SortBy(Key(b.losses), e);
    RotateAt(s, b.round, i);
    RotateAt(s, b.round, j);
    var p, q := Place(|e|, b.round, i), Place(|e|, b.round, j);
    if p < q { SortByOrdered(Key(b.losses), e, p, q); }
  }

  ghost function ByeSet(bye: Option<Id>): set<Id> {
    match bye case Some(v) => {v} case None => {}
  }

  lemma EntrantsAre(t: Tournament, b: State)
    requires Eligible(t, b) != {}
    ensures Distinct(Entrants(t, b)) && Elements(Entrants(t, b)) == Eligible(t, b) - ByeSet(ByeOf(t, b))
  {
    var e := Eligible(t, b);
    SortByDistinct(Key(b.losses), e);
    RotateKeeps(SortBy(Key(b.losses), e), b.round);
    if ByeOf(t, b).Some? { RemoveKeeps(Ordered(t, b), ByeOf(t, b).value); }
  }

  /** An item among the eligible `s` whose pairing is not exhausted. */
  ghost predicate Issuable(f: Field, s: set<Id>, item: Item) {
    && Players(item) <= s
    && (item.Match? ==> item.left != item.right && Meetings(f.inconclusive, item.left, item.right) < 2)
  }

  lemma ItemsIssuable(f: Field, s: set<Id>, bye: Option<Id>, pairs: seq<Pair>, i: nat)
    requires IsMatching(f, s - ByeSet(bye), pairs) && ByeSet(bye) <= s && i < |Items(bye, pairs)|
    ensures Issuable(f, s, Items(bye, pairs)[i])
    ensures Items(bye, pairs)[i].Bye? <==> i == 0 && bye.Some?
    ensures Items(bye, pairs)[i].Bye? ==> bye == Some(Items(bye, pairs)[i].left)
  {
    var d := if bye.Some? then 1 else 0;
    if i >= d {
      assert Items(bye, pairs)[i] == Matches(pairs)[i - d];
      assert PairIn(f, s - ByeSet(bye), pairs[i - d]);
    }
  }

  lemma ItemsApart(f: Field, s: set<Id>, bye: Option<Id>, pairs: seq<Pair>, i: nat, j: nat)
    requires IsMatching(f, s - ByeSet(bye), pairs) && i < j < |Items(bye, pairs)|
    ensures Players(Items(bye, pairs)[i]) !! Players(Items(bye, pairs)[j])
  {
    var d := if bye.Some? then 1 else 0;
    assert Items(bye, pairs)[j] == Matches(pairs)[j - d];
    assert PairIn(f, s - ByeSet(bye), pairs[j - d]);
    if i >= d {
      assert Items(bye, pairs)[i] == Matches(pairs)[i - d];
      assert Apart(pairs[i - d], pairs[j - d]);
    }
  }

  /** The issued items: players eligible, no player twice, a bye first when the eligible are odd. */
  ghost predicate Issued(f: Field, s: set<Id>, bye: Option<Id>, items: seq<Item>) {
    && (forall i | 0 <= i < |items| :: Issuable(f, s, items[i]))
    && (forall i | 0 <= i < |items| :: items[i].Bye? <==> i == 0 && bye.Some?)
    && (forall i | 0 <= i < |items| :: items[i].Bye? ==> bye == Some(items[i].left))
    && (forall i, j | 0 <= i < j < |items| :: Players(items[i]) !! Players(items[j]))
  }

  lemma RoundIssued(t: Tournament, b: State, items: seq<Item>)
    requires Schedule(t, b) == Round(items)
    ensures Issued(FieldOf(t, b), Eligible(t, b), ByeOf(t, b), items)
    ensures |items| > |ByeSet(ByeOf(t, b))|
  {
    var f, s, bye := FieldOf(t, b), Eligible(t, b), ByeOf(t, b);
    var pairs := MaximumPairs(f, Entrants(t, b));
    EntrantsAre(t, b);
    MaximumPairsIsMatching(f, Entrants(t, b));
    assert items == Items(bye, pairs);
    forall i | 0 <= i < |items|
      ensures Issuable(f, s, items[i]) && (items[i].Bye? <==> i == 0 && bye.Some?)
           && (items[i].Bye? ==> bye == Some(items[i].left))
    {
      ItemsIssuable(f, s, bye, pairs, i);
    }
    forall i, j | 0 <= i < j < |items| ensures Players(items[i]) !! Players(items[j]) {
      ItemsApart(f, s, bye, pairs, i, j);
    }
  }

  lemma RoundPending(t: Tournament, b: State, items: seq<Item>, reports: seq<Report>)
    requires Schedule(t, b) == Round(items) && Covers(items, reports)
    ensures Pending(t, b, Entries(items, reports))
  {
    RoundIssued(t, b, items);
    hide Schedule, Eligible, ByeOf, ByeSet;
    var es := Entries(items, reports);
    forall i | 0 <= i < |es| ensures Ready(t, b, es[i]) {
      assert Issuable(FieldOf(t, b), Eligible(t, b), items[reports[i].index]);
    }
    forall i, j | 0 <= i < j < |es| ensures Players(es[i].item) !! Players(es[j].item) {
      var p, q := reports[i].index, reports[j].index;
      if p < q { assert Players(items[p]) !! Players(items[q]); } else { assert Players(items[q]) !! Players(items[p]); }
    }
  }

  // --- Sound brackets ---

  ghost predicate IsPair(k: set<Id>) {
    exists x, y :: x != y && k == {x, y}
  }

  /** An entrant's losses, with a quarantine counted as one more. */
  function Load(b: State, v: Id): nat {
    Get(b.losses, v) + if v in b.quarantined then 1 else 0
  }

  /**
   No record of an outsider, no entrant past elimination, no pair past two inconclusive meetings.
   Whoever has three losses is out before it can be quarantined.
   */
  ghost predicate Sound(t: Tournament, b: State) {
    && RefersOnlyTo(b, Active(t))
    && (forall v | v in b.losses || v in b.quarantined :: Load(b, v) <= EliminationLosses)
    && (forall k | k in b.inconclusive :: IsPair(k) && b.inconclusive[k] <= 2)
  }

  lemma ApplyOneSound(t: Tournament, b: State, e: Entry)
    requires Sound(t, b) && Ready(t, b, e)
    ensures Sound(t, ApplyOne(b, e))
  {
    assert Eligible(t, b) <= Active(t);
    if e.item.Match? { assert IsPair({e.item.left, e.item.right}); }
  }

  lemma ApplyOneKeepsReady(t: Tournament, b: State, e: Entry, other: Entry)
    requires Ready(t, b, other) && Players(e.item) !! Players(other.item)
    ensures Ready(t, ApplyOne(b, e), other)
  {
    if e.item.Match? && other.item.Match? {
      assert e.item.left in {e.item.left, e.item.right};
      assert {e.item.left, e.item.right} != {other.item.left, other.item.right};
    }
  }

  lemma ApplyOnePending(t: Tournament, b: State, entries: seq<Entry>)
    requires Pending(t, b, entries) && entries != []
    ensures Pending(t, ApplyOne(b, entries[0]), entries[1..])
  {
    forall i | 0 <= i < |entries| - 1 ensures Ready(t, ApplyOne(b, entries[0]), entries[1..][i]) {
      ApplyOneKeepsReady(t, b, entries[0], entries[i + 1]);
    }
  }

  lemma {:induction false} ApplyAllSound(t: Tournament, b: State, entries: seq<Entry>)
    requires Sound(t, b) && Pending(t, b, entries)
    ensures Sound(t, ApplyAll(b, entries))
    decreases |entries|
  {
    if entries != [] {
      ApplyOneSound(t, b, entries[0]);
      ApplyOnePending(t, b, entries);
      ApplyAllSound(t, ApplyOne(b, entries[0]), entries[1..]);
    }
  }

  // --- Progress ---

  ghost function Total<K(!new)>(m: map<K, nat>): int {
    Sum(m.Keys, m)
  }

  lemma TotalBump<K(!new)>(m: map<K, nat>, k: K)
    ensures Total(Bump(m, k)) == Total(m) + 1
  {
    var n := Bump(m, k);
    var rest := m.Keys - {k};
    assert n.Keys - {k} == rest;
    SumRemove(n.Keys, n, k);
    SumAgree(rest, m, n);
    if k in m { SumRemove(m.Keys, m, k); } else { assert m.Keys == rest; }
  }

  ghost function Progress(b: State): int {
    Total(b.losses) + Total(b.inconclusive) + |b.quarantined|
  }

  lemma Quarantines(s: set<Id>, added: set<Id>, v: Id)
    requires v in added && v !in s
    ensures |s + added| > |s|
  {
    SubsetCardinality(s + {v}, s + added);
  }

  /** Every result but a bye raises the measure. */
  lemma ApplyOneProgress(t: Tournament, b: State, e: Entry)
    requires Ready(t, b, e)
    ensures Progress(ApplyOne(b, e)) >= Progress(b) + if e.item.Match? then 1 else 0
  {
    hide Total, Meetings, Bump;
    match e.item
    case Bye(_) =>
    case Match(left, right) =>
      match e.outcome
      case LEFT => TotalBump(b.losses, right);
      case RIGHT => TotalBump(b.losses, left);
      case QUARANTINE_LEFT => Quarantines(b.quarantined, {left}, left);
      case QUARANTINE_RIGHT => Quarantines(b.quarantined, {right}, right);
      case QUARANTINE_BOTH => Quarantines(b.quarantined, {left, right}, left);
      case _ => TotalBump(b.inconclusive, {left, right});
  }

  /** The only byes among the entries are `bye`'s. */
  ghost predicate OnlyBye(bye: Option<Id>, entries: seq<Entry>) {
    forall i | 0 <= i < |entries| :: entries[i].item.Bye? ==> bye == Some(entries[i].item.left)
  }

  /** Once the bye is applied, no other is left. */
  lemma ByeIsSpent(t: Tournament, b: State, bye: Option<Id>, entries: seq<Entry>)
    requires Pending(t, b, entries) && OnlyBye(bye, entries) && entries != []
    ensures OnlyBye(if entries[0].item.Bye? then None else bye, entries[1..])
  {
    forall i | 1 <= i < |entries| ensures entries[0].item.Bye? ==> !entries[i].item.Bye? {
      assert Players(entries[0].item) !! Players(entries[i].item);
    }
  }

  lemma {:induction false} ApplyAllProgress(t: Tournament, b: State, bye: Option<Id>, entries: seq<Entry>)
    requires Pending(t, b, entries) && OnlyBye(bye, entries)
    ensures Progress(ApplyAll(b, entries)) >= Progress(b) + |entries| - if bye.Some? then 1 else 0
    decreases |entries|
  {
    if entries != [] {
      ApplyOneProgress(t, b, entries[0]);
      ApplyOnePending(t, b, entries);
      ByeIsSpent(t, b, bye, entries);
      ApplyAllProgress(t, ApplyOne(b, entries[0]), if entries[0].item.Bye? then None else bye, entries[1..]);
    }
  }

  lemma RoundOnlyBye(t: Tournament, b: State, items: seq<Item>, reports: seq<Report>)
    requires Schedule(t, b) == Round(items) && Covers(items, reports)
    ensures OnlyBye(ByeOf(t, b), Entries(items, reports))
    ensures |items| > if ByeOf(t, b).Some? then 1 else 0
  {
    RoundIssued(t, b, items);
  }

  // --- Bye fairness ---

  ghost predicate Fair(byes: map<Id, nat>, s: set<Id>) {
    forall u, v | u in s && v in s :: Get(byes, u) <= Get(byes, v) + 1
  }

  ghost predicate HasFewest(byes: map<Id, nat>, s: set<Id>, bye: Option<Id>) {
    bye.Some? ==> forall v | v in s :: Get(byes, bye.value) <= Get(byes, v)
  }

  lemma {:induction false} ApplyAllFair(t: Tournament, b: State, s: set<Id>, bye: Option<Id>, entries: seq<Entry>)
    requires Pending(t, b, entries) && OnlyBye(bye, entries)
    requires Fair(b.byes, s) && HasFewest(b.byes, s, bye)
    ensures Fair(ApplyAll(b, entries).byes, s)
    decreases |entries|
  {
    if entries != [] {
      ApplyOnePending(t, b, entries);
      ByeIsSpent(t, b, bye, entries);
      assert Fair(ApplyOne(b, entries[0]).byes, s) by { assert OnlyBye(bye, entries[..1]); }
      ApplyAllFair(t, ApplyOne(b, entries[0]), s, if entries[0].item.Bye? then None else bye, entries[1..]);
    }
  }

  lemma ApplyOneEligible(t: Tournament, b: State, e: Entry)
    ensures Eligible(t, ApplyOne(b, e)) <= Eligible(t, b)
  {}

  lemma {:induction false} ApplyAllEligible(t: Tournament, b: State, entries: seq<Entry>)
    ensures Eligible(t, ApplyAll(b, entries)) <= Eligible(t, b)
    ensures ApplyAll(b, entries).round == b.round
    decreases |entries|
  {
    if entries != [] {
      ApplyOneEligible(t, b, entries[0]);
      ApplyAllEligible(t, ApplyOne(b, entries[0]), entries[1..]);
    }
  }

  lemma ByeHasFewest(t: Tournament, b: State)
    ensures HasFewest(b.byes, Eligible(t, b), ByeOf(t, b))
  {
    if ByeOf(t, b).Some? {
      var m := ByeOf(t, b).value;
      forall v | v in Eligible(t, b) ensures Get(b.byes, m) <= Get(b.byes, v) {
        assert Before(Key(b.byes), m, v);
      }
    }
  }

  // --- The records against the results applied ---

  ghost function LostBy(v: Id): Entry -> bool {
    (e: Entry) => e.item.Match? && ((e.outcome.LEFT? && v == e.item.right) || (e.outcome.RIGHT? && v == e.item.left))
  }

  ghost function RestedBy(v: Id): Entry -> bool {
    (e: Entry) => e.item == Bye(v)
  }

  ghost function MetBy(k: set<Id>): Entry -> bool {
    (e: Entry) => e.item.Match? && (e.outcome.DRAW? || e.outcome.INCONCLUSIVE?) && k == {e.item.left, e.item.right}
  }

  ghost function ExpelledBy(v: Id): Entry -> bool {
    (e: Entry) => e.item.Match?
      && ((v == e.item.left && (e.outcome.QUARANTINE_LEFT? || e.outcome.QUARANTINE_BOTH?))
       || (v == e.item.right && (e.outcome.QUARANTINE_RIGHT? || e.outcome.QUARANTINE_BOTH?)))
  }

  ghost function Quarantining(): Entry -> bool {
    (e: Entry) => e.outcome.QUARANTINE_LEFT? || e.outcome.QUARANTINE_RIGHT? || e.outcome.QUARANTINE_BOTH?
  }

  ghost function Count(log: seq<Entry>, p: Entry -> bool): nat {
    if log == [] then 0 else Count(log[..|log| - 1], p) + if p(log[|log| - 1]) then 1 else 0
  }

  lemma CountSnoc(log: seq<Entry>, e: Entry, p: Entry -> bool)
    ensures Count(log + [e], p) == Count(log, p) + if p(e) then 1 else 0
  {
    assert (log + [e])[..|log|] == log;
  }

  /** The bracket's maps are exactly what the applied results say, entrant by entrant and pair by pair. */
  ghost predicate Records(b: State, log: seq<Entry>) {
    && (forall v :: Get(b.losses, v) == Count(log, LostBy(v)))
    && (forall v :: Get(b.byes, v) == Count(log, RestedBy(v)))
    && (forall k :: Get(b.inconclusive, k) == Count(log, MetBy(k)))
    && (forall v :: v in b.quarantined <==> Count(log, ExpelledBy(v)) > 0)
  }

  lemma ApplyOneLosses(b: State, e: Entry, log: seq<Entry>, v: Id)
    requires Get(b.losses, v) == Count(log, LostBy(v))
    ensures Get(ApplyOne(b, e).losses, v) == Count(log + [e], LostBy(v))
  {
    hide Count;
    CountSnoc(log, e, LostBy(v));
  }

  lemma ApplyOneByes(b: State, e: Entry, log: seq<Entry>, v: Id)
    requires Get(b.byes, v) == Count(log, RestedBy(v))
    ensures Get(ApplyOne(b, e).byes, v) == Count(log + [e], RestedBy(v))
  {
    hide Count;
    CountSnoc(log, e, RestedBy(v));
  }

  lemma ApplyOneMeetings(b: State, e: Entry, log: seq<Entry>, k: set<Id>)
    requires Get(b.inconclusive, k) == Count(log, MetBy(k)) && (e.item.Bye? <==> e.outcome.BYE?)
    ensures Get(ApplyOne(b, e).inconclusive, k) == Count(log + [e], MetBy(k))
  {
    hide Count;
    CountSnoc(log, e, MetBy(k));
  }

  lemma ApplyOneQuarantine(b: State, e: Entry, log: seq<Entry>, v: Id)
    requires v in b.quarantined <==> Count(log, ExpelledBy(v)) > 0
    ensures v in ApplyOne(b, e).quarantined <==> Count(log + [e], ExpelledBy(v)) > 0
  {
    hide Bump, Get, Count;
    CountSnoc(log, e, ExpelledBy(v));
  }

  lemma ApplyOneRecords(b: State, e: Entry, log: seq<Entry>)
    requires Records(b, log) && (e.item.Bye? <==> e.outcome.BYE?)
    ensures Records(ApplyOne(b, e), log + [e])
  {
    hide ApplyOne, Count, Get, LostBy, RestedBy, MetBy, ExpelledBy;
    var c := ApplyOne(b, e);
    forall v ensures Get(c.losses, v) == Count(log + [e], LostBy(v)) { ApplyOneLosses(b, e, log, v); }
    forall v ensures Get(c.byes, v) == Count(log + [e], RestedBy(v)) { ApplyOneByes(b, e, log, v); }
    forall k ensures Get(c.inconclusive, k) == Count(log + [e], MetBy(k)) { ApplyOneMeetings(b, e, log, k); }
    forall v ensures v in c.quarantined <==> Count(log + [e], ExpelledBy(v)) > 0 {
      ApplyOneQuarantine(b, e, log, v);
    }
  }

  /** Losses, byes, inconclusive meetings and quarantine outcomes add up to the results applied. */
  ghost predicate Conserved(b: State, log: seq<Entry>) {
    Total(b.losses) + Total(b.byes) + Total(b.inconclusive) + Count(log, Quarantining()) == |log|
  }

  lemma ApplyOneConserved(b: State, e: Entry, log: seq<Entry>)
    requires Conserved(b, log) && (e.item.Bye? <==> e.outcome.BYE?)
    ensures Conserved(ApplyOne(b, e), log + [e])
  {
    CountSnoc(log, e, Quarantining());
    hide Total, Bump, Count;
    match e.item
    case Bye(left) => TotalBump(b.byes, left);
    case Match(left, right) =>
      if e.outcome.LEFT? { TotalBump(b.losses, right); }
      if e.outcome.RIGHT? { TotalBump(b.losses, left); }
      if e.outcome.DRAW? || e.outcome.INCONCLUSIVE? { TotalBump(b.inconclusive, {left, right}); }
  }

  lemma {:induction false} ApplyAllRecords(t: Tournament, b: State, entries: seq<Entry>, log: seq<Entry>)
    requires Pending(t, b, entries) && Records(b, log) && Conserved(b, log)
    ensures Records(ApplyAll(b, entries), log + entries) && Conserved(ApplyAll(b, entries), log + entries)
    decreases |entries|
  {
    hide Records, Conserved;
    if entries == [] {
      assert log + entries == log;
    } else {
      assert Ready(t, b, entries[0]);
      ApplyOneRecords(b, entries[0], log);
      ApplyOneConserved(b, entries[0], log);
      ApplyOnePending(t, b, entries);
      ApplyAllRecords(t, ApplyOne(b, entries[0]), entries[1..], log + [entries[0]]);
      assert log + [entries[0]] + entries[1..] == log + entries;
    }
  }

  // --- Runs ---

  datatype Call = Call(live: bool, reports: seq<Report>)

  ghost predicate PlaysRound(t: Tournament, b: State, c: Call) {
    c.live && Schedule(t, b).Round? && Covers(Schedule(t, b).items, c.reports)
  }

  /** The bracket after a call, whether or not it raises. */
  ghost function Next(t: Tournament, b: State, c: Call): State {
    Step(t, b, c.live, c.reports).bracket
  }

  ghost function Applied(t: Tournament, b: State, c: Call): seq<Entry> {
    if PlaysRound(t, b, c) then Entries(Schedule(t, b).items, c.reports) else []
  }

  ghost function Run(t: Tournament, calls: seq<Call>): State {
    if calls == [] then Empty else Next(t, Run(t, calls[..|calls| - 1]), calls[|calls| - 1])
  }

  ghost function History(t: Tournament, calls: seq<Call>): seq<Entry> {
    if calls == [] then []
    else
      var before := calls[..|calls| - 1];
      History(t, before) + Applied(t, Run(t, before), calls[|calls| - 1])
  }

  ghost predicate Invariant(t: Tournament, b: State, log: seq<Entry>) {
    && Sound(t, b)
    && Records(b, log)
    && Conserved(b, log)
    && Fair(b.byes, Eligible(t, b))
    && b.round <= Progress(b)
    && (b.terminal == Some(MaxRounds) ==> b.round >= t.maxRounds)
  }

  /** A round raises the measure by at least one for each of its pairs. */
  lemma RoundProgress(t: Tournament, b: State, c: Call)
    requires PlaysRound(t, b, c)
    ensures Progress(Next(t, b, c)) >= Progress(b) + |c.reports| - (if ByeOf(t, b).Some? then 1 else 0)
    ensures Progress(Next(t, b, c)) > Progress(b)
    ensures Next(t, b, c).round == b.round + 1
  {
    var items := Schedule(t, b).items;
    RoundPending(t, b, items, c.reports);
    RoundOnlyBye(t, b, items, c.reports);
    ApplyAllProgress(t, b, ByeOf(t, b), Entries(items, c.reports));
    ApplyAllEligible(t, b, Entries(items, c.reports));
  }

  /** The same books, whatever the round and terminal. */
  ghost predicate SameBooks(b: State, c: State) {
    b.losses == c.losses && b.byes == c.byes && b.inconclusive == c.inconclusive && b.quarantined == c.quarantined
  }

  lemma SameBooksAgree(t: Tournament, b: State, c: State, log: seq<Entry>)
    requires SameBooks(b, c)
    ensures Sound(t, b) == Sound(t, c) && Conserved(b, log) == Conserved(c, log)
    ensures Records(b, log) == Records(c, log)
    ensures Eligible(t, b) == Eligible(t, c) && Progress(b) == Progress(c)
  {
    hide Total, Count, Get, LostBy, RestedBy, MetBy, ExpelledBy, Quarantining;
  }

  lemma RoundKeeps(t: Tournament, b: State, c: Call, log: seq<Entry>)
    requires PlaysRound(t, b, c) && Invariant(t, b, log)
    ensures Invariant(t, Next(t, b, c), log + Applied(t, b, c))
  {
    hide Sound, Records, Conserved, Pending, Progress, Eligible, ByeOf, OnlyBye, HasFewest;
    var items := Schedule(t, b).items;
    var entries := Entries(items, c.reports);
    var r := ApplyAll(b, entries);
    RoundPending(t, b, items, c.reports);
    RoundOnlyBye(t, b, items, c.reports);
    ByeHasFewest(t, b);
    RoundProgress(t, b, c);
    ApplyAllSound(t, b, entries);
    ApplyAllRecords(t, b, entries, log);
    ApplyAllFair(t, b, Eligible(t, b), ByeOf(t, b), entries);
    ApplyAllEligible(t, b, entries);
    SameBooksAgree(t, r, Close(t, r), log + entries);
  }

  lemma NextKeeps(t: Tournament, b: State, c: Call, log: seq<Entry>)
    requires Invariant(t, b, log)
    ensures Invariant(t, Next(t, b, c), log + Applied(t, b, c))
  {
    hide Sound, Records, Conserved, Progress, Eligible;
    if PlaysRound(t, b, c) {
      RoundKeeps(t, b, c, log);
    } else {
      assert log + Applied(t, b, c) == log;
      var r := Next(t, b, c);
      assert r == b.(terminal := r.terminal);
      assert r.terminal == Some(MaxRounds) ==> b.round >= t.maxRounds;
      SameBooksAgree(t, b, r, log);
    }
  }

  /** After any calls from an empty bracket. */
  lemma {:induction false} RunInvariant(t: Tournament, calls: seq<Call>)
    ensures Invariant(t, Run(t, calls), History(t, calls))
    decreases |calls|
  {
    if calls != [] {
      var before := calls[..|calls| - 1];
      RunInvariant(t, before);
      NextKeeps(t, Run(t, before), calls[|calls| - 1], History(t, before));
    }
  }

  /** The invariant read entrant by entrant and pair by pair. */
  lemma RunLimits(t: Tournament, calls: seq<Call>, u: Id, v: Id)
    ensures Get(Run(t, calls).losses, v) <= EliminationLosses
    ensures Meetings(Run(t, calls).inconclusive, u, v) <= 2
    ensures {u, v} <= Eligible(t, Run(t, calls)) ==>
              Get(Run(t, calls).byes, u) <= Get(Run(t, calls).byes, v) + 1
    ensures Schedule(t, Run(t, calls)) != Refused
  {
    hide Records, Conserved, Progress, Run, History, Eligible, MaximumPairs, Entrants, Items, ByeOf;
    RunInvariant(t, calls);
  }

  // --- Termination without the round cap ---

  lemma Distribute(c: nat, m: nat, n: nat)
    requires n == m + 1
    ensures c * n == c * m + c
  {}

  lemma {:induction false} SumBound<K(!new)>(s: set<K>, f: map<K, nat>, c: nat)
    requires s <= f.Keys && forall x | x in s :: f[x] <= c
    ensures Sum(s, f) <= c * |s|
    decreases |s|
  {
    if s != {} {
      var x :| x in s;
      SumRemove(s, f, x);
      var rest := s - {x};
      SumBound(rest, f, c);
      assert |s| == |rest| + 1;
      Distribute(c, |rest|, |s|);
    }
  }

  /** Pairs that share `x` are as many as the others they pair it with. */
  lemma {:induction false} PairsWith(x: Id, others: set<Id>, ks: set<set<Id>>)
    requires forall k | k in ks :: exists y | y in others :: k == {x, y}
    ensures |ks| <= |others|
    decreases |others|
  {
    if ks != {} {
      var k :| k in ks;
      var y :| y in others && k == {x, y};
      forall l | l in ks - {k} ensures exists z | z in others - {y} :: l == {x, z} {
        var z :| z in others && l == {x, z};
        assert z in others - {y};
      }
      PairsWith(x, others - {y}, ks - {k});
    }
  }

  lemma PairArithmetic(n: nat, with: nat, rest: nat)
    requires n >= 1 && with <= n - 1 && 2 * rest <= (n - 1) * (n - 2)
    ensures 2 * (with + rest) <= n * (n - 1)
  {
    assert (n - 1) * (n - 2) + 2 * (n - 1) == n * (n - 1);
  }

  lemma PairWith(x: Id, s: set<Id>, k: set<Id>)
    requires IsPair(k) && k <= s && x in k
    ensures exists y | y in s - {x} :: k == {x, y}
  {
    var p, q :| p != q && k == {p, q};
    var y := if p == x then q else p;
    assert y in s - {x} && k == {x, y};
  }

  lemma {:induction false} PairCount(s: set<Id>, ks: set<set<Id>>)
    requires forall k | k in ks :: IsPair(k) && k <= s
    ensures 2 * |ks| <= |s| * (|s| - 1)
    decreases |s|
  {
    if s == {} {
      assert forall k | k in ks :: false;
      assert ks == {};
    } else {
      var x :| x in s;
      hide IsPair;
      var with, rest := set k | k in ks && x in k, set k | k in ks && x !in k;
      forall k | k in with ensures exists y | y in s - {x} :: k == {x, y} { PairWith(x, s, k); }
      PairsWith(x, s - {x}, with);
      PairCount(s - {x}, rest);
      assert ks == with + rest;
      assert |ks| == |with| + |rest| && |s - {x}| == |s| - 1;
      PairArithmetic(|s|, |with|, |rest|);
    }
  }

  ghost function Loads(s: set<Id>, b: State): map<Id, nat> {
    map v | v in s :: Load(b, v)
  }

  lemma {:induction false} LoadSum(all: set<Id>, s: set<Id>, b: State)
    requires s <= all
    ensures Sum(s, Loads(all, b)) == Sum(b.losses.Keys * s, b.losses) + |b.quarantined * s|
    decreases |s|
  {
    if s != {} {
      var v :| v in s;
      var rest := s - {v};
      SumRemove(s, Loads(all, b), v);
      LoadSum(all, rest, b);
      LossesRemove(b.losses, s, v);
      QuarantineRemove(b.quarantined, s, v);
    } else {
      assert b.losses.Keys * s == {} && b.quarantined * s == {};
    }
  }

  lemma LossesRemove(losses: map<Id, nat>, s: set<Id>, v: Id)
    requires v in s
    ensures Sum(losses.Keys * s, losses) == Get(losses, v) + Sum(losses.Keys * (s - {v}), losses)
  {
    if v in losses {
      SumRemove(losses.Keys * s, losses, v);
      assert losses.Keys * s - {v} == losses.Keys * (s - {v});
    } else {
      assert losses.Keys * s == losses.Keys * (s - {v});
    }
  }

  lemma QuarantineRemove(q: set<Id>, s: set<Id>, v: Id)
    requires v in s
    ensures |q * s| == |q * (s - {v})| + if v in q then 1 else 0
  {
    if v in q { assert q * s == q * (s - {v}) + {v}; } else { assert q * s == q * (s - {v}); }
  }

  lemma LoadsTotal(t: Tournament, b: State)
    requires Sound(t, b)
    ensures Sum(Active(t), Loads(Active(t), b)) == Total(b.losses) + |b.quarantined|
  {
    LoadSum(Active(t), Active(t), b);
    assert b.losses.Keys * Active(t) == b.losses.Keys;
    assert b.quarantined * Active(t) == b.quarantined;
  }

  lemma LoadsBounded(t: Tournament, b: State, v: Id)
    requires Sound(t, b) && v in Active(t)
    ensures Load(b, v) <= EliminationLosses
    ensures v in Eligible(t, b) ==> Load(b, v) <= EliminationLosses - 1
  {}

  lemma MeetingsBound(t: Tournament, b: State)
    requires Sound(t, b)
    ensures Total(b.inconclusive) <= |Active(t)| * (|Active(t)| - 1)
  {
    SumBound(b.inconclusive.Keys, b.inconclusive, 2);
    PairCount(Active(t), b.inconclusive.Keys);
  }

  /** While two entrants are still in, the measure is at least two below its maximum n(n + 2). */
  lemma ProgressBound(t: Tournament, b: State, x: Id, y: Id)
    requires Sound(t, b) && x != y && {x, y} <= Eligible(t, b)
    ensures Progress(b) <= |Active(t)| * (|Active(t)| + 2) - 2
  {
    hide Sound, Load, Total, Eligible;
    var a, f := Active(t), Loads(Active(t), b);
    assert x in a && y in a by { EligibleIsActive(t, b); }
    LoadsTotal(t, b);
    MeetingsBound(t, b);
    forall v | v in a ensures f[v] <= 3 { LoadsBounded(t, b, v); }
    LoadsBounded(t, b, x);
    LoadsBounded(t, b, y);
    SumRemove(a, f, x);
    SumRemove(a - {x}, f, y);
    SumBound(a - {x} - {y}, f, 3);
    assert |a - {x} - {y}| == |a| - 2;
    Quadratic(|a|);
  }

  lemma EligibleIsActive(t: Tournament, b: State)
    ensures Eligible(t, b) <= Active(t)
  {}

  lemma Quadratic(n: nat)
    ensures n * (n + 2) == n * (n - 1) + 3 * n
  {}

  lemma RoundHasTwo(t: Tournament, b: State) returns (x: Id, y: Id)
    requires Schedule(t, b).Round?
    ensures x != y && {x, y} <= Eligible(t, b)
  {
    hide Eligible, MaximumPairs, RefersOnlyTo, Entrants, Items;
    var e := Eligible(t, b);
    x :| x in e;
    assert |e - {x}| == |e| - 1 > 0;
    y :| y in e - {x};
  }

  /** After n(n + 2) - 1 rounds nobody is left to pair. */
  ghost predicate Short(t: Tournament, b: State) {
    b.round == 0 || b.round <= |Active(t)| * (|Active(t)| + 2) - 1
  }

  lemma NextShort(t: Tournament, b: State, c: Call, log: seq<Entry>)
    requires Invariant(t, b, log) && Short(t, b)
    ensures Short(t, Next(t, b, c))
  {
    if PlaysRound(t, b, c) {
      var x, y := RoundHasTwo(t, b);
      ProgressBound(t, b, x, y);
      RoundProgress(t, b, c);
    } else {
      hide Invariant, Schedule;
      assert Next(t, b, c).round == b.round;
    }
  }

  lemma {:induction false} RunShort(t: Tournament, calls: seq<Call>)
    ensures Short(t, Run(t, calls))
    decreases |calls|
  {
    hide Invariant, Short, Next;
    if calls == [] {
      StartShort(t);
    } else {
      var before := calls[..|calls| - 1];
      RunInvariant(t, before);
      RunShort(t, before);
      NextShort(t, Run(t, before), calls[|calls| - 1], History(t, before));
    }
  }

  lemma StartShort(t: Tournament)
    ensures Short(t, Empty)
  {}

  /** Rounds are bounded by the entrants alone, and a cap of n(n + 2) never ends a bracket. */
  lemma RoundsBounded(t: Tournament, calls: seq<Call>)
    ensures Run(t, calls).round == 0 || Run(t, calls).round < |Active(t)| * (|Active(t)| + 2)
    ensures 0 < t.maxRounds && |Active(t)| * (|Active(t)| + 2) <= t.maxRounds ==> Run(t, calls).terminal != Some(MaxRounds)
  {
    hide Sound, Records, Conserved, Run;
    RunInvariant(t, calls);
    RunShort(t, calls);
  }

  // --- When a bracket can no longer be scheduled ---

  ghost predicate CanPair(t: Tournament, b: State) {
    exists p :: PairIn(FieldOf(t, b), Eligible(t, b) - ByeSet(ByeOf(t, b)), p)
  }

  lemma PairNeedsTwo(f: Field, s: set<Id>, e: set<Id>, p: Pair)
    requires PairIn(f, s, p) && s <= e
    ensures |e| >= 2
  {
    SubsetCardinality({p.0, p.1}, e);
  }

  /** An open bracket below the cap goes on exactly while two entrants other than the bye are playable. */
  lemma ContinuesExactlyWhenPlayable(t: Tournament, b: State)
    requires RefersOnlyTo(b, Active(t)) && b.terminal == None && b.round < t.maxRounds
    ensures Schedule(t, b).Round? <==> CanPair(t, b)
  {
    hide Eligible, Entrants, ByeOf, PairIn, MaximumPairs, IsMatching, Elements, Distinct, Active, RefersOnlyTo, ByeSet;
    var e, f := Eligible(t, b), FieldOf(t, b);
    if p :| PairIn(f, e - ByeSet(ByeOf(t, b)), p) { PairNeedsTwo(f, e - ByeSet(ByeOf(t, b)), e, p); }
    if e != {} {
      EntrantsAre(t, b);
      PairsExactlyWhenPlayable(f, Entrants(t, b));
    }
  }

  /** A playable pair among the eligible, the bye's holder included. */
  ghost predicate SomePlayable(t: Tournament, b: State) {
    exists p :: PairIn(FieldOf(t, b), Eligible(t, b), p)
  }

  /** With an even number of eligible entrants there is no bye, and a playable pair always gives a round. */
  lemma EvenAlwaysContinues(t: Tournament, b: State)
    requires RefersOnlyTo(b, Active(t)) && b.terminal == None && b.round < t.maxRounds && |Eligible(t, b)| % 2 == 0
    ensures Schedule(t, b).Round? <==> SomePlayable(t, b)
  {
    ContinuesExactlyWhenPlayable(t, b);
    hide Schedule, Eligible, PairIn, RefersOnlyTo;
    assert Eligible(t, b) - ByeSet(ByeOf(t, b)) == Eligible(t, b);
  }

  /** The bye strands the bracket exactly when some pair is playable and every playable pair needs its holder. */
  lemma StrandedExactly(t: Tournament, b: State)
    requires RefersOnlyTo(b, Active(t)) && b.terminal == None && b.round < t.maxRounds
    ensures !Schedule(t, b).Round? && SomePlayable(t, b) <==>
              && SomePlayable(t, b) && ByeOf(t, b).Some?
              && forall p | PairIn(FieldOf(t, b), Eligible(t, b), p) :: ByeOf(t, b).value == p.0 || ByeOf(t, b).value == p.1
  {
    ContinuesExactlyWhenPlayable(t, b);
    var e, f, bye := Eligible(t, b), FieldOf(t, b), ByeOf(t, b);
    hide Schedule, Eligible, ByeOf, RefersOnlyTo, Playable;
    if bye.None? {
      assert e - ByeSet(bye) == e;
    } else {
      forall p ensures PairIn(f, e - ByeSet(bye), p) <==> PairIn(f, e, p) && bye.value != p.0 && bye.value != p.1 {}
    }
  }
}
