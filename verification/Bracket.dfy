/**
 A tournament bracket: rounds of pairings and byes, applied result by result.
 The registry that holds a bracket is one variable that a call reads and replaces.
 */
module Bracket {
  import opened Wrappers
  import opened Identifiers
  import opened Matching

  datatype Terminal = OneSurvivor | NoSchedulablePairs | MaxRounds | LeaseExhausted

  /** The protocol's part of a bracket; the repository fixes `maxRounds` at 24. */
  datatype Tournament = Tournament(recipes: map<Id, Recipe>, entrants: set<Id>, track: string, maxRounds: nat)

  const EliminationLosses: nat := 3

  datatype State = State(
    round: nat,
    losses: map<Id, nat>,
    byes: map<Id, nat>,
    inconclusive: map<set<Id>, nat>,
    quarantined: set<Id>,
    terminal: Option<Terminal>)

  const Empty: State := State(0, map[], map[], map[], {}, None)

  function Get<K>(m: map<K, nat>, k: K): nat {
    if k in m then m[k] else 0
  }

  function Bump<K>(m: map<K, nat>, k: K): map<K, nat> {
    m[k := Get(m, k) + 1]
  }

  function Active(t: Tournament): set<Id> {
    set v | v in t.entrants && v in t.recipes && t.recipes[v].track == t.track
  }

  function Eligible(t: Tournament, b: State): set<Id> {
    set v | v in Active(t) && v !in b.quarantined && Get(b.losses, v) < EliminationLosses
  }

  // --- Scheduling a round ---

  datatype Item = Bye(left: Id) | Match(left: Id, right: Id)

  datatype Plan = Refused | Ended(reason: Terminal) | Round(items: seq<Item>)

  function Key(counts: map<Id, nat>): Id -> int {
    v => Get(counts, v)
  }

  function Rotate(s: seq<Id>, k: nat): seq<Id>
    requires s != []
  {
    s[k % |s|..] + s[..k % |s|]
  }

  /** `list.remove` */
  function Remove(s: seq<Id>, x: Id): seq<Id> {
    if s == [] then [] else if s[0] == x then s[1..] else [s[0]] + Remove(s[1..], x)
  }

  function Ordered(t: Tournament, b: State): seq<Id>
    requires Eligible(t, b) != {}
  {
    Rotate(SortBy(Key(b.losses), Eligible(t, b)), b.round)
  }

  function ByeOf(t: Tournament, b: State): Option<Id> {
    var e := Eligible(t, b);
    if |e| % 2 == 1 then Some(First(Key(b.byes), e)) else None
  }

  /** Who is left to pair once the bye is taken out, in pairing order. */
  function Entrants(t: Tournament, b: State): seq<Id>
    requires Eligible(t, b) != {}
  {
    match ByeOf(t, b)
    case Some(bye) => Remove(Ordered(t, b), bye)
    case None => Ordered(t, b)
  }

  function FieldOf(t: Tournament, b: State): Field {
    Field(t.recipes, b.inconclusive)
  }

  function Matches(pairs: seq<Pair>): (r: seq<Item>)
    ensures |r| == |pairs| && forall i | 0 <= i < |r| :: r[i] == Match(pairs[i].0, pairs[i].1)
  {
    if pairs == [] then [] else [Match(pairs[0].0, pairs[0].1)] + Matches(pairs[1..])
  }

  function Items(bye: Option<Id>, pairs: seq<Pair>): seq<Item> {
    (if bye.Some? then [Bye(bye.value)] else []) + Matches(pairs)
  }

  /** Every entrant that the bracket's records name is one of `s`. */
  predicate RefersOnlyTo(b: State, s: set<Id>) {
    && (forall v | v in b.losses :: v in s)
    && (forall v | v in b.byes :: v in s)
    && b.quarantined <= s
    && (forall k | k in b.inconclusive :: k <= s)
  }

  /** `schedule`, with a live lease */
  function Schedule(t: Tournament, b: State): Plan {
    var e := Eligible(t, b);
    if !RefersOnlyTo(b, Active(t)) then Refused
    else if b.terminal.Some? then Ended(b.terminal.value)
    else if b.round >= t.maxRounds then Ended(MaxRounds)
    else if |e| == 1 then Ended(OneSurvivor)
    else if e == {} then Ended(NoSchedulablePairs)
    else
      var pairs := MaximumPairs(FieldOf(t, b), Entrants(t, b));
      if pairs == [] then Ended(NoSchedulablePairs) else Round(Items(ByeOf(t, b), pairs))
  }

  // --- Applying a round's results ---

  datatype Outcome =
    LEFT | RIGHT | DRAW | INCONCLUSIVE | QUARANTINE_LEFT | QUARANTINE_RIGHT | QUARANTINE_BOTH | BYE

  /** A submitted result names its issued receipt by position. */
  datatype Report = Report(index: nat, outcome: Outcome)

  datatype Entry = Entry(item: Item, outcome: Outcome)

  ghost predicate Covers(items: seq<Item>, reports: seq<Report>) {
    && |reports| == |items|
    && (forall i | 0 <= i < |reports| :: reports[i].index < |items|)
    && (forall i, j | 0 <= i < j < |reports| :: reports[i].index != reports[j].index)
    && (forall i | 0 <= i < |reports| :: items[reports[i].index].Bye? <==> reports[i].outcome.BYE?)
  }

  function Entries(items: seq<Item>, reports: seq<Report>): (r: seq<Entry>)
    requires forall i | 0 <= i < |reports| :: reports[i].index < |items|
    ensures |r| == |reports|
    ensures forall i | 0 <= i < |r| :: r[i] == Entry(items[reports[i].index], reports[i].outcome)
  {
    if reports == [] then []
    else [Entry(items[reports[0].index], reports[0].outcome)] + Entries(items, reports[1..])
  }

  /** One turn of the loop that applies results. */
  function ApplyOne(b: State, e: Entry): State {
    match e.item
    case Bye(left) => b.(byes := Bump(b.byes, left))
    case Match(left, right) =>
      match e.outcome
      case LEFT => b.(losses := Bump(b.losses, right))
      case RIGHT => b.(losses := Bump(b.losses, left))
      case QUARANTINE_LEFT => b.(quarantined := b.quarantined + {left})
      case QUARANTINE_RIGHT => b.(quarantined := b.quarantined + {right})
      case QUARANTINE_BOTH => b.(quarantined := b.quarantined + {left, right})
      case _ => b.(inconclusive := Bump(b.inconclusive, {left, right}))
  }

  function ApplyAll(b: State, entries: seq<Entry>): State
    decreases |entries|
  {
    if entries == [] then b else ApplyAll(ApplyOne(b, entries[0]), entries[1..])
  }

  function Close(t: Tournament, b: State): State {
    b.(round := b.round + 1, terminal := if b.round + 1 >= t.maxRounds then Some(MaxRounds) else None)
  }

  /** The bracket that the registry holds after a call, and whether the call raises. */
  datatype Stepped = Stepped(bracket: State, raised: bool)

  /** `apply`. Scheduling commits a terminal before submitted results are turned away. */
  ghost function Step(t: Tournament, b: State, live: bool, reports: seq<Report>): Stepped {
    if !live then if reports == [] then Stepped(b.(terminal := Some(LeaseExhausted)), false) else Stepped(b, true)
    else
      match Schedule(t, b)
      case Refused => Stepped(b, true)
      case Ended(reason) => Stepped(b.(terminal := Some(reason)), reports != [])
      case Round(items) =>
        if Covers(items, reports) then Stepped(Close(t, ApplyAll(b, Entries(items, reports))), false) else Stepped(b, true)
  }

  // --- The two loops as the source runs them ---

  method CoversExactly(items: seq<Item>, reports: seq<Report>) returns (ok: bool)
    ensures ok == Covers(items, reports)
  {
    if |reports| != |items| {
      return false;
    }
    var seen := {};
    for i := 0 to |reports|
      invariant forall k | 0 <= k < i :: reports[k].index < |items| && reports[k].index in seen
      invariant forall x | x in seen :: exists k | 0 <= k < i :: reports[k].index == x
      invariant forall j, k | 0 <= j < k < i :: reports[j].index != reports[k].index
      invariant forall k | 0 <= k < i :: items[reports[k].index].Bye? <==> reports[k].outcome.BYE?
    {
      var r := reports[i];
      if r.index >= |items| || r.index in seen || items[r.index].Bye? != r.outcome.BYE? {
        return false;
      }
      seen := seen + {r.index};
    }
    return true;
  }

  method ApplyLoop(b: State, entries: seq<Entry>) returns (r: State)
    ensures r == ApplyAll(b, entries)
  {
    var losses, byes, inconclusive, quarantined := b.losses, b.byes, b.inconclusive, b.quarantined;
    var i := 0;
    while i < |entries|
      invariant 0 <= i <= |entries|
      invariant ApplyAll(State(b.round, losses, byes, inconclusive, quarantined, b.terminal), entries[i..])
             == ApplyAll(b, entries)
    {
      var left := entries[i].item.left;
      assert entries[i..][1..] == entries[i + 1..];
      if entries[i].item.Bye? {
        byes := Bump(byes, left);
      } else {
        var right := entries[i].item.right;
        match entries[i].outcome {
          case LEFT => losses := Bump(losses, right);
          case RIGHT => losses := Bump(losses, left);
          case QUARANTINE_LEFT => quarantined := quarantined + {left};
          case QUARANTINE_RIGHT => quarantined := quarantined + {right};
          case QUARANTINE_BOTH => quarantined := quarantined + {left, right};
          case _ => inconclusive := Bump(inconclusive, {left, right});
        }
      }
      i := i + 1;
    }
    r := State(b.round, losses, byes, inconclusive, quarantined, b.terminal);
  }

  class Registry {
    var bracket: State

    constructor ()
      ensures bracket == Empty
    {
      bracket := Empty;
    }

    method Apply(t: Tournament, live: bool, reports: seq<Report>) returns (ok: bool)
      modifies this
      ensures Stepped(bracket, !ok) == Step(t, old(bracket), live, reports)
    {
      if !live {
        ok := reports == [];
        if ok { bracket := bracket.(terminal := Some(LeaseExhausted)); }
        return;
      }
      var plan := Schedule(t, bracket);
      match plan {
        case Refused => ok := false;
        case Ended(reason) =>
          bracket := bracket.(terminal := Some(reason));
          ok := reports == [];
        case Round(items) =>
          ok := CoversExactly(items, reports);
          if ok {
            var applied := ApplyLoop(bracket, Entries(items, reports));
            bracket := Close(t, applied);
          }
      }
    }
  }
}
