/** The verdict of one match, from three interval estimates and two hard gates. Floats are reals here. */
module MatchDecision {

  /** An interval is wholly known or wholly unknown. */
  datatype Interval = Unknown | Known(estimate: real, lower: real, upper: real)

  predicate Ordered(i: Interval) {
    i.Known? ==> i.lower <= i.estimate <= i.upper
  }

  datatype Evidence = Evidence(success: Interval, cost: Interval, time: Interval, leftGates: bool, rightGates: bool)

  datatype Verdict =
    Left | Right | Draw | Inconclusive | QuarantineLeft | QuarantineRight | QuarantineBoth
    | OutOfDomain

  const Margin: real := -0.05
  const Tolerance: real := 1.1

  predicate InDomain(success: Interval) {
    success.Known? ==> success.lower >= -1.0 && success.upper <= 1.0
  }

  predicate Positive(ratio: Interval) {
    ratio.Known? ==> ratio.estimate > 0.0 && ratio.lower > 0.0 && ratio.upper > 0.0
  }

  predicate CheaperWithin(a: Interval, b: Interval)
    requires a.Known? && b.Known?
  {
    a.upper < 1.0 && b.upper <= Tolerance
  }

  predicate DearerWithin(a: Interval, b: Interval)
    requires a.Known? && b.Known?
  {
    a.lower > 1.0 && b.lower >= 1.0 / Tolerance
  }

  /** `decide_match` after its evidence checks; `OutOfDomain` where it raises. */
  function Decide(e: Evidence): Verdict {
    if !InDomain(e.success) || !Positive(e.cost) || !Positive(e.time) then OutOfDomain
    else if !e.leftGates && !e.rightGates then QuarantineBoth
    else if !e.leftGates then QuarantineLeft
    else if !e.rightGates then QuarantineRight
    else if e.success.Unknown? then Inconclusive
    else if e.success.lower > 0.0 then Left
    else if e.success.upper < 0.0 then Right
    else if !(e.success.lower > Margin && -e.success.upper > Margin) then Draw
    else if e.cost.Unknown? || e.time.Unknown? then Inconclusive
    else if CheaperWithin(e.cost, e.time) || CheaperWithin(e.time, e.cost) then Left
    else if DearerWithin(e.cost, e.time) || DearerWithin(e.time, e.cost) then Right
    else Draw
  }

  // --- Swapping the sides ---

  function Negated(i: Interval): Interval {
    if i.Unknown? then i else Known(-i.estimate, -i.upper, -i.lower)
  }

  function Reciprocal(i: Interval): Interval
    requires Positive(i)
  {
    if i.Unknown? then i else Known(1.0 / i.estimate, 1.0 / i.upper, 1.0 / i.lower)
  }

  /** The same match seen from the other side. */
  function Swapped(e: Evidence): Evidence
    requires Positive(e.cost) && Positive(e.time)
  {
    Evidence(Negated(e.success), Reciprocal(e.cost), Reciprocal(e.time), e.rightGates, e.leftGates)
  }

  function Mirror(v: Verdict): Verdict {
    match v
    case Left => Right
    case Right => Left
    case QuarantineLeft => QuarantineRight
    case QuarantineRight => QuarantineLeft
    case _ => v
  }

  lemma ReciprocalOrder(x: real, y: real)
    requires x > 0.0 && y > 0.0
    ensures 1.0 / x > 0.0
    ensures x <= y <==> 1.0 / y <= 1.0 / x
  {
    var p, q := 1.0 / x, 1.0 / y;
    assert p * x == 1.0 && q * y == 1.0;
    assert p > 0.0 && q > 0.0;
    if x <= y { assert q * x <= q * y; assert (p - q) * x >= 0.0; }
    if q <= p { assert q * x <= p * x; assert q * (y - x) >= 0.0; }
  }

  lemma ReciprocalThresholds(x: real)
    requires x > 0.0
    ensures 1.0 / x > 0.0
    ensures 1.0 / x < 1.0 <==> x > 1.0
    ensures 1.0 / x > 1.0 <==> x < 1.0
    ensures 1.0 / x <= Tolerance <==> x >= 1.0 / Tolerance
    ensures 1.0 / x >= 1.0 / Tolerance <==> x <= Tolerance
  {
    ReciprocalOrder(x, 1.0);
    ReciprocalOrder(1.0, x);
    ReciprocalOrder(1.0 / Tolerance, x);
    ReciprocalOrder(x, Tolerance);
  }

  lemma ReciprocalInterval(i: Interval)
    requires Ordered(i) && Positive(i)
    ensures Ordered(Reciprocal(i)) && Positive(Reciprocal(i)) && Reciprocal(Reciprocal(i)) == i
  {
    if i.Known? {
      ReciprocalOrder(i.lower, i.estimate);
      ReciprocalOrder(i.estimate, i.upper);
    }
  }

  /** Each efficiency rule seen from the other side is the other rule. */
  lemma RulesSwap(a: Interval, b: Interval)
    requires a.Known? && b.Known? && Positive(a) && Positive(b)
    ensures CheaperWithin(Reciprocal(a), Reciprocal(b)) <==> DearerWithin(a, b)
    ensures DearerWithin(Reciprocal(a), Reciprocal(b)) <==> CheaperWithin(a, b)
  {
    ReciprocalThresholds(a.lower);
    ReciprocalThresholds(a.upper);
    ReciprocalThresholds(b.lower);
    ReciprocalThresholds(b.upper);
  }

  /** `a` is better on this side and `b` on the other, each within tolerance. */
  predicate Split(a: Interval, b: Interval) {
    && a.Known? && b.Known?
    && 1.0 / Tolerance <= a.lower && a.upper < 1.0
    && 1.0 < b.lower && b.upper <= Tolerance
  }

  /** Success decides nothing, neither side is inferior, and the two ratios point opposite ways. */
  predicate Torn(e: Evidence) {
    && e.leftGates && e.rightGates
    && e.success.Known? && -0.05 < e.success.lower <= 0.0 <= e.success.upper < 0.05
    && (Split(e.cost, e.time) || Split(e.time, e.cost))
  }

  lemma BothRulesFire(a: Interval, b: Interval)
    requires a.Known? && b.Known? && Ordered(a) && Ordered(b) && Positive(a) && Positive(b)
    ensures (CheaperWithin(a, b) || CheaperWithin(b, a)) && (DearerWithin(a, b) || DearerWithin(b, a))
       <==> Split(a, b) || Split(b, a)
  {}

  ghost predicate Admissible(e: Evidence) {
    Ordered(e.success) && Ordered(e.cost) && Ordered(e.time) && Positive(e.cost) && Positive(e.time)
  }

  /** Swapping is an involution on admissible evidence. */
  lemma SwapTwice(e: Evidence)
    requires Admissible(e)
    ensures Admissible(Swapped(e)) && Swapped(Swapped(e)) == e
  {
    ReciprocalInterval(e.cost);
    ReciprocalInterval(e.time);
  }

  /** Swapping the sides mirrors the verdict exactly when the evidence is not torn; torn evidence is Left from both sides. */
  lemma SwapMirrors(e: Evidence)
    requires Admissible(e)
    ensures Decide(Swapped(e)) == Mirror(Decide(e)) <==> !(InDomain(e.success) && Torn(e))
    ensures InDomain(e.success) && Torn(e) ==> Decide(e) == Left && Decide(Swapped(e)) == Left
  {
    SwapTwice(e);
    if e.cost.Known? && e.time.Known? {
      RulesSwap(e.cost, e.time);
      RulesSwap(e.time, e.cost);
      BothRulesFire(e.cost, e.time);
    }
    hide CheaperWithin, DearerWithin, Reciprocal;
  }

  /** A match that both sides win from their own seat. */
  lemma TornMatch()
    ensures var ratio := Known(1.05, 1.02, 1.08);
            var e := Evidence(Known(0.0, -0.01, 0.01), Reciprocal(ratio), ratio, true, true);
            Torn(e) && Decide(e) == Left && Decide(Swapped(e)) == Left
  {
    var ratio := Known(1.05, 1.02, 1.08);
    var e := Evidence(Known(0.0, -0.01, 0.01), Reciprocal(ratio), ratio, true, true);
    ReciprocalInterval(ratio);
    ReciprocalThresholds(1.02);
    ReciprocalThresholds(1.08);
    SwapMirrors(e);
  }

  // --- Better evidence ---

  predicate AtLeast(i: Interval, j: Interval) {
    i.Known? && j.Known? && i.lower >= j.lower && i.upper >= j.upper
  }

  /** Every interval of `f` is at least as good for the left side as that of `e`. */
  predicate Better(f: Evidence, e: Evidence) {
    && AtLeast(f.success, e.success) && AtLeast(e.cost, f.cost) && AtLeast(e.time, f.time)
    && f.leftGates == e.leftGates && f.rightGates == e.rightGates
  }

  /**
   Better evidence can cost the left side its win: a success interval that reaches the margin without
   clearing zero makes the other side inferior, and the efficiency rules are no longer consulted.
   */
  lemma BetterKeepsLeftExactly(e: Evidence, f: Evidence)
    requires Admissible(e) && Admissible(f) && InDomain(f.success) && Better(f, e) && Decide(e) == Left
    ensures Decide(f) == Left <==> f.success.lower > 0.0 || f.success.upper < 0.05
    ensures Decide(f) == Left || Decide(f) == Draw
  {}

  /** A win that better evidence turns into a draw: the success interval now reaches past 0.05. */
  lemma BetterCanLoseTheWin()
    ensures var ratio := Known(0.9, 0.9, 0.9);
            var e := Evidence(Known(0.0, -0.01, 0.04), ratio, ratio, true, true);
            var f := Evidence(Known(0.02, -0.01, 0.06), ratio, ratio, true, true);
            Admissible(e) && Admissible(f) && Better(f, e) && Decide(e) == Left && Decide(f) == Draw
  {}

  // --- When each verdict is given ---

  /** A verdict names exactly the sides whose hard gates failed, whenever the evidence can be read at all. */
  lemma GatesExactly(e: Evidence)
    ensures Decide(e) == OutOfDomain <==>
              || (e.success.Known? && (e.success.lower < -1.0 || e.success.upper > 1.0))
              || (e.cost.Known? && (e.cost.lower <= 0.0 || e.cost.estimate <= 0.0 || e.cost.upper <= 0.0))
              || (e.time.Known? && (e.time.lower <= 0.0 || e.time.estimate <= 0.0 || e.time.upper <= 0.0))
    ensures Decide(e) != OutOfDomain ==>
              && (!e.leftGates <==> Decide(e) in {QuarantineLeft, QuarantineBoth})
              && (!e.rightGates <==> Decide(e) in {QuarantineRight, QuarantineBoth})
  {}

  /** Success decides nothing, and neither side is worse by 0.05 or more. */
  ghost predicate Even(success: Interval) {
    success.Known? && -0.05 < success.lower <= 0.0 <= success.upper < 0.05
  }

  /** `a` is surely better for the left side, and `b` surely not more than a tenth worse. */
  ghost predicate Saves(a: Interval, b: Interval) {
    a.Known? && b.Known? && a.upper < 1.0 && b.upper <= 1.1
  }

  /** `a` is surely worse for the left side, and `b` surely not better than by that tenth. */
  ghost predicate Wastes(a: Interval, b: Interval) {
    a.Known? && b.Known? && a.lower > 1.0 && b.lower * 1.1 >= 1.0
  }

  /** With both gates passed: success decides if it can, and otherwise even sides are compared by cost and time. */
  lemma VerdictExactly(e: Evidence)
    requires Admissible(e) && Decide(e) != OutOfDomain && e.leftGates && e.rightGates
    ensures var known := e.cost.Known? && e.time.Known?;
            var saves, wastes := Saves(e.cost, e.time) || Saves(e.time, e.cost), Wastes(e.cost, e.time) || Wastes(e.time, e.cost);
            && (Decide(e) == Inconclusive <==> e.success.Unknown? || (Even(e.success) && !known))
            && (Decide(e) == Left <==> e.success.Known? && (e.success.lower > 0.0 || (Even(e.success) && saves)))
            && (Decide(e) == Right <==> e.success.Known? && (e.success.upper < 0.0 || (Even(e.success) && !saves && wastes)))
            && (Decide(e) == Draw <==> e.success.Known? && e.success.lower <= 0.0 <= e.success.upper
                                       && (!Even(e.success) || (known && !saves && !wastes)))
  {
    if e.cost.Known? && e.time.Known? {
      TenthExactly(e.cost.lower);
      TenthExactly(e.time.lower);
    }
  }

  lemma TenthExactly(x: real)
    ensures x >= 1.0 / Tolerance <==> x * 1.1 >= 1.0
  {
    assert 1.0 / Tolerance * 1.1 == 1.0;
  }
}
