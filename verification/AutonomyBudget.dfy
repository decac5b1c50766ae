/**
 The shared, non-renewable budget of an autonomous run. Its lock makes every operation atomic, so a
 concurrent use is a sequence of operations. Compute units are reals; the fresh identifier of a
 reservation is the caller's choice.
 */
module AutonomyBudget {
  import opened Identifiers

  /** Two resources counted together: a claim, an allowance, a total. */
  datatype Units = Units(toolCalls: int, compute: real) {
    function Plus(u: Units): Units { Units(toolCalls + u.toolCalls, compute + u.compute) }
    function Minus(u: Units): Units { Units(toolCalls - u.toolCalls, compute - u.compute) }
    predicate AtMost(u: Units) { toolCalls <= u.toolCalls && compute <= u.compute }
    predicate NonNegative() { toolCalls >= 0 && compute >= 0.0 }
  }

  const Zero: Units := Units(0, 0.0)

  datatype Limits = Limits(episodes: int, total: Units, perEpisode: Units)

  ghost predicate ValidLimits(l: Limits) {
    l.episodes >= 0 && l.total.NonNegative() && l.perEpisode.NonNegative()
  }

  /** What the budget remembers of one reservation. */
  datatype Claim = Claim(allowance: Units, claimed: Units)

  /** What a caller holds of it. */
  datatype Reservation = Reservation(id: Id, allowance: Units)

  datatype Books = Books(episodes: int, used: Units, reserved: Units, reservations: map<Id, Claim>)

  datatype Answer = Done | Allowed(allowance: Units) | BudgetExceeded | ValueError

  datatype Op =
    | Issue
    | Consume(allowance: Units, amount: Units)
    | Reserve(id: Id)
    | Extend(reservation: Reservation, amount: Units)
    | Settle(reservation: Reservation)

  function Min(a: int, b: int): int { if a <= b then a else b }
  function MinReal(a: real, b: real): real { if a <= b then a else b }

  function Available(l: Limits, b: Books): Units {
    Units(
      Min(l.perEpisode.toolCalls, l.total.toolCalls - b.used.toolCalls - b.reserved.toolCalls),
      MinReal(l.perEpisode.compute, l.total.compute - b.used.compute - b.reserved.compute))
  }

  predicate Spent(l: Limits, episodes: int, units: Units) {
    episodes >= l.episodes || units.toolCalls >= l.total.toolCalls || units.compute >= l.total.compute
  }

  predicate Full(l: Limits, b: Books) {
    Spent(l, b.episodes + |b.reservations|, b.used.Plus(b.reserved))
  }

  predicate Active(b: Books, r: Reservation) {
    r.id in b.reservations && b.reservations[r.id].allowance == r.allowance
  }

  /** The answer to an operation. */
  function Reply(l: Limits, b: Books, op: Op): Answer {
    match op
    case Issue => if Full(l, b) then BudgetExceeded else Allowed(Available(l, b))
    case Reserve(_) => if Full(l, b) then BudgetExceeded else Allowed(Available(l, b))
    case Consume(allowance, amount) =>
      if !amount.NonNegative() then ValueError
      else if !amount.AtMost(allowance) then BudgetExceeded
      else if b.episodes + |b.reservations| + 1 > l.episodes then BudgetExceeded
      else if !b.used.Plus(b.reserved).Plus(amount).AtMost(l.total) then BudgetExceeded
      else Done
    case Extend(r, amount) =>
      if !amount.NonNegative() || !Active(b, r) then ValueError
      else if !b.reservations[r.id].claimed.Plus(amount).AtMost(r.allowance) then BudgetExceeded
      else if !b.used.Plus(b.reserved).Plus(amount).AtMost(l.total) then BudgetExceeded
      else Done
    case Settle(r) => if Active(b, r) then Done else ValueError
  }

  /** The books after it. A settlement removes the reservation before it looks at the allowance. */
  function Next(l: Limits, b: Books, op: Op): Books {
    var a := Reply(l, b, op);
    match op
    case Issue => b
    case Consume(_, amount) => if a.Done? then b.(episodes := b.episodes + 1, used := b.used.Plus(amount)) else b
    case Reserve(id) =>
      if a.Allowed? then b.(reservations := b.reservations[id := Claim(a.allowance, Zero)]) else b
    case Extend(r, amount) =>
      if a.Done? then
        var c := b.reservations[r.id];
        b.(reservations := b.reservations[r.id := c.(claimed := c.claimed.Plus(amount))],
           reserved := b.reserved.Plus(amount))
      else b
    case Settle(r) =>
      var rest := b.(reservations := b.reservations - {r.id});
      if !a.Done? then rest
      else
        var c := b.reservations[r.id].claimed;
        var freed := rest.(reserved := b.reserved.Minus(c));
        if c == Zero then freed else freed.(episodes := b.episodes + 1, used := b.used.Plus(c))
  }

  // --- The envelope ---

  /** Used and reserved together stay inside every maximum, and every claim inside its allowance. */
  ghost predicate Within(l: Limits, b: Books) {
    && b.episodes + |b.reservations| <= l.episodes
    && b.reserved.NonNegative()
    && b.used.Plus(b.reserved).AtMost(l.total)
    && forall id | id in b.reservations :: ClaimWithin(l, b.reservations[id])
  }

  ghost predicate ClaimWithin(l: Limits, c: Claim) {
    && c.claimed.NonNegative() && c.claimed.AtMost(c.allowance)
    && c.allowance.AtMost(l.perEpisode)
  }

  // --- Claims in total ---

  ghost function Claimed(m: map<Id, Claim>): Units
    decreases m.Keys
  {
    if m == map[] then Zero else
      var id :| id in m;
      m[id].claimed.Plus(Claimed(m - {id}))
  }

  lemma PlusSwap(a: Units, b: Units, c: Units)
    ensures a.Plus(b.Plus(c)) == b.Plus(a.Plus(c))
  {}

  lemma {:induction false} ClaimedRemove(m: map<Id, Claim>, id: Id)
    requires id in m
    ensures Claimed(m) == m[id].claimed.Plus(Claimed(m - {id}))
    decreases m.Keys
  {
    var x :| x in m && Claimed(m) == m[x].claimed.Plus(Claimed(m - {x}));
    if x != id {
      assert m[id] == (m - {x})[id] && m[x] == (m - {id})[x];
      ClaimedRemove(m - {x}, id);
      ClaimedRemove(m - {id}, x);
      assert m - {x} - {id} == m - {id} - {x};
      var rest := Claimed(m - {x} - {id});
      assert Claimed(m - {x}) == m[id].claimed.Plus(rest);
      assert Claimed(m - {id}) == m[x].claimed.Plus(rest);
      PlusSwap(m[x].claimed, m[id].claimed, rest);
    }
  }

  lemma ClaimedUpdate(m: map<Id, Claim>, id: Id, c: Claim)
    ensures Claimed(m[id := c]) == c.claimed.Plus(Claimed(m - {id}))
  {
    ClaimedRemove(m[id := c], id);
    assert m[id := c] - {id} == m - {id};
  }

  lemma ClaimedAbsent(m: map<Id, Claim>, id: Id)
    requires id !in m
    ensures m - {id} == m
  {}

  /** What an operation drops: a claim popped by a mismatched settlement, or overwritten by a reused identifier. */
  ghost function Dropped(l: Limits, b: Books, op: Op): Units {
    match op
    case Settle(r) => if r.id in b.reservations && !Active(b, r) then b.reservations[r.id].claimed else Zero
    case Reserve(id) => if id in b.reservations && !Full(l, b) then b.reservations[id].claimed else Zero
    case _ => Zero
  }

  /** What an operation spends or claims. */
  ghost function Granted(l: Limits, b: Books, op: Op): Units {
    match op
    case Consume(_, amount) => if Reply(l, b, op).Done? then amount else Zero
    case Extend(_, amount) => if Reply(l, b, op).Done? then amount else Zero
    case _ => Zero
  }

  /** How far the reserved totals exceed the active claims. */
  ghost function Excess(b: Books): Units {
    b.reserved.Minus(Claimed(b.reservations))
  }

  lemma SettleClaims(l: Limits, b: Books, r: Reservation)
    ensures Excess(Next(l, b, Settle(r))) == Excess(b).Plus(Dropped(l, b, Settle(r)))
  {
    hide Claimed;
    if r.id in b.reservations { ClaimedRemove(b.reservations, r.id); } else { ClaimedAbsent(b.reservations, r.id); }
  }

  lemma ReserveClaims(l: Limits, b: Books, id: Id)
    ensures Excess(Next(l, b, Reserve(id))) == Excess(b).Plus(Dropped(l, b, Reserve(id)))
  {
    hide Claimed;
    if Reply(l, b, Reserve(id)).Allowed? {
      ClaimedUpdate(b.reservations, id, Claim(Available(l, b), Zero));
      if id in b.reservations { ClaimedRemove(b.reservations, id); } else { ClaimedAbsent(b.reservations, id); }
    }
  }

  lemma ExtendClaims(l: Limits, b: Books, r: Reservation, amount: Units)
    ensures Excess(Next(l, b, Extend(r, amount))) == Excess(b)
  {
    hide Claimed;
    if Reply(l, b, Extend(r, amount)).Done? {
      var c := b.reservations[r.id];
      ClaimedUpdate(b.reservations, r.id, c.(claimed := c.claimed.Plus(amount)));
      ClaimedRemove(b.reservations, r.id);
    }
  }

  /** Only a dropped claim moves the reserved totals away from the active claims. */
  lemma NextClaims(l: Limits, b: Books, op: Op)
    ensures Excess(Next(l, b, op)) == Excess(b).Plus(Dropped(l, b, op))
  {
    match op
    case Settle(r) => SettleClaims(l, b, r);
    case Reserve(id) => ReserveClaims(l, b, id);
    case Extend(r, amount) => ExtendClaims(l, b, r, amount);
    case _ =>
  }

  lemma {:induction false} ClaimedNonNegative(l: Limits, m: map<Id, Claim>)
    requires forall id | id in m :: ClaimWithin(l, m[id])
    ensures Claimed(m).NonNegative()
    decreases m.Keys
  {
    if m != map[] {
      var id :| id in m;
      ClaimedRemove(m, id);
      ClaimedNonNegative(l, m - {id});
    }
  }

  // --- One operation ---

  /** The books are inside the envelope, and the reserved totals are the active claims plus `leaked`. */
  ghost predicate Balanced(l: Limits, b: Books, leaked: Units) {
    && Within(l, b)
    && leaked.NonNegative()
    && b.reserved == Claimed(b.reservations).Plus(leaked)
  }

  lemma SettleStaysWithin(l: Limits, b: Books, leaked: Units, r: Reservation)
    requires Balanced(l, b, leaked)
    ensures Within(l, Next(l, b, Settle(r)))
  {
    if r.id in b.reservations {
      ClaimedRemove(b.reservations, r.id);
      ClaimedNonNegative(l, b.reservations - {r.id});
      assert ClaimWithin(l, b.reservations[r.id]);
      assert (b.reservations - {r.id}).Keys == b.reservations.Keys - {r.id};
    } else {
      ClaimedAbsent(b.reservations, r.id);
    }
  }

  lemma OtherStaysWithin(l: Limits, b: Books, op: Op)
    requires ValidLimits(l) && Within(l, b) && !op.Settle?
    ensures Within(l, Next(l, b, op))
  {
    match op
    case Reserve(id) =>
      assert b.reservations[id := Claim(Available(l, b), Zero)].Keys == b.reservations.Keys + {id};
    case Extend(r, amount) =>
      if Reply(l, b, op).Done? {
        assert ClaimWithin(l, b.reservations[r.id]);
        assert Next(l, b, op).reservations.Keys == b.reservations.Keys;
      }
    case _ =>
  }

  lemma DroppedNonNegative(l: Limits, b: Books, op: Op)
    requires Within(l, b)
    ensures Dropped(l, b, op).NonNegative()
  {
    assert forall id | id in b.reservations :: ClaimWithin(l, b.reservations[id]);
  }

  lemma NextBalanced(l: Limits, b: Books, leaked: Units, op: Op)
    requires ValidLimits(l) && Balanced(l, b, leaked)
    ensures Balanced(l, Next(l, b, op), leaked.Plus(Dropped(l, b, op)))
  {
    if op.Settle? { SettleStaysWithin(l, b, leaked, op.reservation); } else { OtherStaysWithin(l, b, op); }
    NextClaims(l, b, op);
    DroppedNonNegative(l, b, op);
    hide Next, Reply, Dropped, Within, Claimed;
  }

  /** Only spending and claiming move `used + reserved`: a settlement, right or wrong, conserves it. */
  lemma NextConserves(l: Limits, b: Books, op: Op)
    ensures Next(l, b, op).used.Plus(Next(l, b, op).reserved) == b.used.Plus(b.reserved).Plus(Granted(l, b, op))
  {}

  /** An allowance just issued can be spent in full, in one piece or through a reservation. */
  lemma AllowanceIsSpendable(l: Limits, b: Books, id: Id, amount: Units)
    requires ValidLimits(l) && Within(l, b) && Reply(l, b, Issue).Allowed? && id !in b.reservations
    requires amount.NonNegative() && amount.AtMost(Reply(l, b, Issue).allowance)
    ensures var a := Reply(l, b, Issue).allowance;
            && Reply(l, b, Consume(a, amount)) == Done
            && Reply(l, Next(l, b, Reserve(id)), Extend(Reservation(id, a), amount)) == Done
  {}

  // --- Any sequence of operations ---

  ghost function Run(l: Limits, start: Books, ops: seq<Op>): Books {
    if ops == [] then start else Next(l, Run(l, start, ops[..|ops| - 1]), ops[|ops| - 1])
  }

  ghost function Leaked(l: Limits, start: Books, ops: seq<Op>): Units {
    if ops == [] then Zero
    else
      var before := ops[..|ops| - 1];
      Leaked(l, start, before).Plus(Dropped(l, Run(l, start, before), ops[|ops| - 1]))
  }

  ghost function TotalGranted(l: Limits, start: Books, ops: seq<Op>): Units {
    if ops == [] then Zero
    else
      var before := ops[..|ops| - 1];
      TotalGranted(l, start, before).Plus(Granted(l, Run(l, start, before), ops[|ops| - 1]))
  }

  /** A new budget: nothing reserved, and what was used before fits. */
  ghost predicate Opening(l: Limits, b: Books) {
    && b.reservations == map[] && b.reserved == Zero
    && b.episodes <= l.episodes && b.used.AtMost(l.total)
  }

  /** A new budget that starts beyond one of its maxima. */
  ghost predicate Overdrawn(l: Limits, b: Books) {
    && b.reservations == map[] && b.reserved == Zero
    && !(b.episodes <= l.episodes && b.used.AtMost(l.total))
  }

  /** It refuses everything and never changes. */
  lemma OverdrawnIsFrozen(l: Limits, b: Books, op: Op)
    requires Overdrawn(l, b)
    ensures Next(l, b, op) == b
    ensures Reply(l, b, op) == BudgetExceeded || Reply(l, b, op) == ValueError
  {
    if op.Settle? { ClaimedAbsent(b.reservations, op.reservation.id); }
  }

  lemma OpeningBalanced(l: Limits, b: Books)
    requires Opening(l, b)
    ensures Balanced(l, b, Zero)
  {}

  lemma {:induction false} RunBalanced(l: Limits, start: Books, ops: seq<Op>)
    requires ValidLimits(l) && Opening(l, start)
    ensures Balanced(l, Run(l, start, ops), Leaked(l, start, ops))
    ensures Run(l, start, ops).used.Plus(Run(l, start, ops).reserved)
         == start.used.Plus(TotalGranted(l, start, ops))
    decreases |ops|
  {
    hide Next, Dropped, Granted, Balanced;
    if ops == [] {
      OpeningBalanced(l, start);
    } else {
      var before := ops[..|ops| - 1];
      var b := Run(l, start, before);
      RunBalanced(l, start, before);
      NextBalanced(l, b, Leaked(l, start, before), ops[|ops| - 1]);
      NextConserves(l, b, ops[|ops| - 1]);
    }
  }

  /** The reservations handed out so far. */
  ghost function Issued(l: Limits, start: Books, ops: seq<Op>): set<Reservation> {
    if ops == [] then {}
    else
      var before := ops[..|ops| - 1];
      var b := Run(l, start, before);
      var op := ops[|ops| - 1];
      Issued(l, start, before)
      + if op.Reserve? && Reply(l, b, op).Allowed? then {Reservation(op.id, Reply(l, b, op).allowance)} else {}
  }

  /** Identifiers are never reused, and every settlement presents a reservation as it was issued. */
  ghost predicate Honest(l: Limits, start: Books, ops: seq<Op>) {
    ops == [] ||
    var before, op := ops[..|ops| - 1], ops[|ops| - 1];
    && Honest(l, start, before)
    && (op.Reserve? ==> forall r | r in Issued(l, start, before) :: r.id != op.id)
    && (op.Settle? ==> op.reservation in Issued(l, start, before))
  }

  ghost predicate Known(b: Books, issued: set<Reservation>) {
    && (forall id | id in b.reservations :: Reservation(id, b.reservations[id].allowance) in issued)
    && (forall r, q | r in issued && q in issued && r.id == q.id :: r == q)
  }

  lemma HonestStep(l: Limits, b: Books, issued: set<Reservation>, op: Op)
    requires Known(b, issued)
    requires op.Reserve? ==> forall r | r in issued :: r.id != op.id
    requires op.Settle? ==> op.reservation in issued
    ensures Dropped(l, b, op) == Zero
    ensures Known(Next(l, b, op), issued
              + if op.Reserve? && Reply(l, b, op).Allowed? then {Reservation(op.id, Reply(l, b, op).allowance)} else {})
  {
    assert forall id | id in b.reservations :: Reservation(id, b.reservations[id].allowance) in issued;
  }

  lemma {:induction false} HonestRun(l: Limits, start: Books, ops: seq<Op>)
    requires Opening(l, start) && Honest(l, start, ops)
    ensures Known(Run(l, start, ops), Issued(l, start, ops))
    ensures Leaked(l, start, ops) == Zero
    decreases |ops|
  {
    if ops != [] {
      var before, op := ops[..|ops| - 1], ops[|ops| - 1];
      HonestRun(l, start, before);
      HonestStep(l, Run(l, start, before), Issued(l, start, before), op);
      hide Next, Dropped, Known, Reply;
    }
  }

  /** With honest callers nothing leaks: the reserved totals are exactly the active claims. */
  lemma HonestNeverLeaks(l: Limits, start: Books, ops: seq<Op>)
    requires ValidLimits(l) && Opening(l, start) && Honest(l, start, ops)
    ensures Leaked(l, start, ops) == Zero
    ensures Run(l, start, ops).reserved == Claimed(Run(l, start, ops).reservations)
  {
    RunBalanced(l, start, ops);
    HonestRun(l, start, ops);
    hide Run, Claimed, Leaked, Within;
  }

  /**
   The operation loses a claim: a settlement finds its identifier with another allowance, or a
   reservation takes an identifier that is still in use, and the claim there is not zero.
   */
  ghost predicate LosesClaim(l: Limits, b: Books, op: Op) {
    match op
    case Settle(r) => r.id in b.reservations && !Active(b, r) && b.reservations[r.id].claimed != Zero
    case Reserve(id) => id in b.reservations && !Full(l, b) && b.reservations[id].claimed != Zero
    case _ => false
  }

  ghost predicate NoneLost(l: Limits, start: Books, ops: seq<Op>) {
    forall i | 0 <= i < |ops| :: !LosesClaim(l, Run(l, start, ops[..i]), ops[i])
  }

  lemma DroppedExactly(l: Limits, b: Books, op: Op)
    ensures Dropped(l, b, op) != Zero <==> LosesClaim(l, b, op)
  {}

  lemma NoneLostSnoc(l: Limits, start: Books, ops: seq<Op>)
    requires ops != []
    ensures var before := ops[..|ops| - 1];
            NoneLost(l, start, ops) <==>
              NoneLost(l, start, before) && !LosesClaim(l, Run(l, start, before), ops[|ops| - 1])
  {
    hide LosesClaim, Run;
    var before := ops[..|ops| - 1];
    assert forall i | 0 <= i < |before| :: before[..i] == ops[..i] && before[i] == ops[i];
  }

  lemma {:induction false} LeakedExactly(l: Limits, start: Books, ops: seq<Op>)
    requires ValidLimits(l) && Opening(l, start)
    ensures Leaked(l, start, ops) == Zero <==> NoneLost(l, start, ops)
    decreases |ops|
  {
    hide Dropped, LosesClaim, Balanced, NoneLost, Next, Run;
    if ops == [] {
      NothingLost(l, start);
    } else {
      var before, op := ops[..|ops| - 1], ops[|ops| - 1];
      var b := Run(l, start, before);
      LeakedExactly(l, start, before);
      RunBalanced(l, start, before);
      BalancedFacts(l, b, Leaked(l, start, before));
      DroppedNonNegative(l, b, op);
      DroppedExactly(l, b, op);
      NoneLostSnoc(l, start, ops);
    }
  }

  lemma NothingLost(l: Limits, start: Books)
    ensures NoneLost(l, start, [])
  {}

  lemma BalancedFacts(l: Limits, b: Books, leaked: Units)
    requires Balanced(l, b, leaked)
    ensures Within(l, b) && leaked.NonNegative() && b.reserved == Claimed(b.reservations).Plus(leaked)
  {}

  /** The reserved totals are the active claims exactly when no operation so far has lost a claim. */
  lemma ReservedExactly(l: Limits, start: Books, ops: seq<Op>)
    requires ValidLimits(l) && Opening(l, start)
    ensures Run(l, start, ops).reserved == Claimed(Run(l, start, ops).reservations) <==> NoneLost(l, start, ops)
  {
    RunBalanced(l, start, ops);
    LeakedExactly(l, start, ops);
    hide Run, Claimed, Leaked, NoneLost, Within;
  }

  /** What a mismatched settlement drops stays reserved for good. */
  lemma LeakNeverReturns(l: Limits, start: Books, ops: seq<Op>, more: seq<Op>)
    requires ValidLimits(l) && Opening(l, start)
    ensures Leaked(l, start, ops).AtMost(Run(l, start, ops + more).reserved)
  {
    LeakedGrows(l, start, ops, more);
    RunBalanced(l, start, ops + more);
    ClaimedNonNegative(l, Run(l, start, ops + more).reservations);
    hide Run, Claimed, Leaked;
  }

  lemma {:induction false} LeakedGrows(l: Limits, start: Books, ops: seq<Op>, more: seq<Op>)
    requires ValidLimits(l) && Opening(l, start)
    ensures Leaked(l, start, ops).AtMost(Leaked(l, start, ops + more))
    decreases |more|
  {
    hide Dropped, Within, Run;
    var all := ops + more;
    if more == [] {
      assert all == ops;
    } else {
      var before := more[..|more| - 1];
      assert all[..|all| - 1] == ops + before;
      LeakedGrows(l, start, ops, before);
      RunBalanced(l, start, ops + before);
      DroppedNonNegative(l, Run(l, start, ops + before), all[|all| - 1]);
    }
  }

  /** A settlement refused for its allowance: the reservation is gone, its claim still counts, and is in no record. */
  lemma RefusedSettlementLeaks(l: Limits, b: Books, r: Reservation)
    requires r.id in b.reservations && b.reservations[r.id].allowance != r.allowance
    requires b.reserved == Claimed(b.reservations)
    ensures var c := Next(l, b, Settle(r));
            && Reply(l, b, Settle(r)) == ValueError && r.id !in c.reservations
            && c.used == b.used && c.episodes == b.episodes
            && c.reserved == Claimed(c.reservations).Plus(b.reservations[r.id].claimed)
  {
    NextClaims(l, b, Settle(r));
  }

  // --- Episodes ---

  /** An episode is used up by an accepted consumption, or by settling an active reservation with something claimed. */
  ghost predicate UsesEpisode(l: Limits, b: Books, op: Op) {
    match op
    case Consume(_, _) => Reply(l, b, op) == Done
    case Settle(r) =>
      r.id in b.reservations && b.reservations[r.id].allowance == r.allowance
      && (b.reservations[r.id].claimed.toolCalls != 0 || b.reservations[r.id].claimed.compute != 0.0)
    case _ => false
  }

  lemma NextEpisodes(l: Limits, b: Books, op: Op)
    ensures Next(l, b, op).episodes == b.episodes + if UsesEpisode(l, b, op) then 1 else 0
  {}

  ghost function EpisodesUsed(l: Limits, start: Books, ops: seq<Op>): nat {
    if ops == [] then 0
    else
      var before := ops[..|ops| - 1];
      EpisodesUsed(l, start, before) + if UsesEpisode(l, Run(l, start, before), ops[|ops| - 1]) then 1 else 0
  }

  /** Over any operations the episode count is the opening plus those used up. */
  lemma {:induction false} RunEpisodes(l: Limits, start: Books, ops: seq<Op>)
    ensures Run(l, start, ops).episodes == start.episodes + EpisodesUsed(l, start, ops)
    decreases |ops|
  {
    hide Next, UsesEpisode;
    if ops != [] {
      var before := ops[..|ops| - 1];
      RunEpisodes(l, start, before);
      NextEpisodes(l, Run(l, start, before), ops[|ops| - 1]);
    }
  }

  // --- What is granted and what is refused ---

  /** The room left in the budget. */
  function Room(l: Limits, b: Books): Units {
    l.total.Minus(b.used.Plus(b.reserved))
  }

  /** An allowance is the largest that fits both the per-episode cap and the room left. */
  lemma AllowanceIsLargest(l: Limits, b: Books, u: Units)
    ensures u.AtMost(Available(l, b)) <==> u.AtMost(l.perEpisode) && u.AtMost(Room(l, b))
  {}

  /** An allowance is granted exactly while an episode and some of each resource are left. */
  lemma GrantExactly(l: Limits, b: Books, id: Id)
    ensures Reply(l, b, Issue) == Reply(l, b, Reserve(id))
    ensures Reply(l, b, Issue) ==
              if b.episodes + |b.reservations| < l.episodes && Room(l, b).toolCalls > 0 && Room(l, b).compute > 0.0
              then Allowed(Available(l, b)) else BudgetExceeded
    ensures Reply(l, b, Issue).Allowed? ==> Next(l, b, Reserve(id)) == b.(reservations := b.reservations[id := Claim(Available(l, b), Zero)])
    ensures !Reply(l, b, Issue).Allowed? ==> Next(l, b, Reserve(id)) == b
  {}

  /** A negative amount or an inactive reservation is an error of the caller; anything else refused is over budget. */
  lemma ValueErrorExactly(l: Limits, b: Books, op: Op)
    ensures Reply(l, b, op) == ValueError <==>
              match op
              case Consume(_, amount) => amount.toolCalls < 0 || amount.compute < 0.0
              case Extend(r, amount) => amount.toolCalls < 0 || amount.compute < 0.0 || !Active(b, r)
              case Settle(r) => !Active(b, r)
              case _ => false
  {}

  /** A well-formed spending or claim is accepted exactly when it stays within its allowance and within the envelope. */
  lemma AcceptedExactly(l: Limits, b: Books, allowance: Units, r: Reservation, amount: Units)
    requires amount.NonNegative()
    ensures Reply(l, b, Consume(allowance, amount)) == Done <==>
              amount.AtMost(allowance) && amount.AtMost(Room(l, b)) && b.episodes + |b.reservations| < l.episodes
    ensures Active(b, r) ==>
              (Reply(l, b, Extend(r, amount)) == Done <==>
                 amount.AtMost(Room(l, b)) && b.reservations[r.id].claimed.Plus(amount).AtMost(b.reservations[r.id].allowance))
  {}

  /** An accepted claim grows its own reservation and nothing else's; a settlement removes its own. */
  lemma ReservationsExactly(l: Limits, b: Books, r: Reservation, amount: Units)
    ensures Reply(l, b, Extend(r, amount)) == Done ==>
              var n := Next(l, b, Extend(r, amount));
              && n.reservations.Keys == b.reservations.Keys
              && (forall id | id in b.reservations && id != r.id :: n.reservations[id] == b.reservations[id])
              && n.reservations[r.id].allowance == b.reservations[r.id].allowance
              && n.reservations[r.id].claimed == b.reservations[r.id].claimed.Plus(amount)
              && n.used == b.used
    ensures Reply(l, b, Extend(r, amount)) != Done ==> Next(l, b, Extend(r, amount)) == b
    ensures Next(l, b, Settle(r)).reservations == b.reservations - {r.id}
    ensures Active(b, r) ==> Next(l, b, Settle(r)).used == b.used.Plus(b.reservations[r.id].claimed)
    ensures !Active(b, r) ==> Next(l, b, Settle(r)).used == b.used && Next(l, b, Settle(r)).reserved == b.reserved
  {}

  // --- The object ---

  class Budget {
    const limits: Limits
    var episodesUsed: int
    var used: Units
    var reserved: Units
    var reservations: map<Id, Claim>

    ghost predicate Valid()
      reads this
    {
      && ValidLimits(limits)
      && (Overdrawn(limits, Contents()) || exists leaked :: Balanced(limits, Contents(), leaked))
    }

    ghost function Contents(): Books
      reads this
    {
      Books(episodesUsed, used, reserved, reservations)
    }

    constructor (limits: Limits, episodesUsed: int, used: Units)
      requires ValidLimits(limits)
      ensures Valid() && this.limits == limits
      ensures Opening(limits, Contents()) || Overdrawn(limits, Contents())
      ensures Contents() == Books(episodesUsed, used, Zero, map[])
    {
      this.limits := limits;
      this.episodesUsed := episodesUsed;
      this.used := used;
      reserved := Zero;
      reservations := map[];
      new;
      hide Balanced;
      if Opening(limits, Contents()) { OpeningBalanced(limits, Contents()); }
    }

    twostate lemma StaysValid(op: Op)
      requires old(Valid()) && Contents() == Next(limits, old(Contents()), op)
      ensures Valid()
    {
      hide Balanced, Next, Dropped, Overdrawn;
      if old(Overdrawn(limits, Contents())) {
        OverdrawnIsFrozen(limits, old(Contents()), op);
      } else {
        var leaked :| old(Balanced(limits, Contents(), leaked));
        NextBalanced(limits, old(Contents()), leaked, op);
      }
    }

    method IssueAllowance() returns (answer: Answer)
      requires Valid()
      ensures answer == Reply(limits, Contents(), Issue)
    {
      if ResourceExhausted(true) {
        return BudgetExceeded;
      }
      return Allowed(Room());
    }

    function ResourceExhausted(includeReservations: bool): bool
      reads this
    {
      if includeReservations then Spent(limits, episodesUsed + |reservations|, used.Plus(reserved))
      else Spent(limits, episodesUsed, used)
    }

    /** Having used everything up leaves nothing to reserve; the converse fails while claims are outstanding. */
    lemma ExhaustedIsFull()
      requires Valid()
      ensures ResourceExhausted(false) <==>
                episodesUsed >= limits.episodes || used.toolCalls >= limits.total.toolCalls || used.compute >= limits.total.compute
      ensures ResourceExhausted(false) ==> ResourceExhausted(true)
      ensures reservations == map[] && reserved == Zero ==> ResourceExhausted(false) == ResourceExhausted(true)
    {}

    function Room(): Units
      reads this
    {
      Available(limits, Books(episodesUsed, used, reserved, reservations))
    }

    method ConsumeUnits(allowance: Units, amount: Units) returns (answer: Answer)
      requires Valid()
      modifies this`episodesUsed, this`used
      ensures Valid()
      ensures answer == Reply(limits, old(Contents()), Consume(allowance, amount))
      ensures Contents() == Next(limits, old(Contents()), Consume(allowance, amount))
    {
      answer := Done;
      if !amount.NonNegative() {
        answer := ValueError;
      } else if !amount.AtMost(allowance) {
        answer := BudgetExceeded;
      } else if episodesUsed + |reservations| + 1 > limits.episodes {
        answer := BudgetExceeded;
      } else if !used.Plus(reserved).Plus(amount).AtMost(limits.total) {
        answer := BudgetExceeded;
      } else {
        episodesUsed := episodesUsed + 1;
        used := used.Plus(amount);
      }
      StaysValid(Consume(allowance, amount));
    }

    method ReserveEpisode(id: Id) returns (answer: Answer)
      requires Valid()
      modifies this`reservations
      ensures Valid()
      ensures answer == Reply(limits, old(Contents()), Reserve(id))
      ensures Contents() == Next(limits, old(Contents()), Reserve(id))
    {
      if ResourceExhausted(true) {
        answer := BudgetExceeded;
      } else {
        var allowance := Room();
        reservations := reservations[id := Claim(allowance, Zero)];
        answer := Allowed(allowance);
      }
      StaysValid(Reserve(id));
    }

    method ReserveConsumption(r: Reservation, amount: Units) returns (answer: Answer)
      requires Valid()
      modifies this`reserved, this`reservations
      ensures Valid()
      ensures answer == Reply(limits, old(Contents()), Extend(r, amount))
      ensures Contents() == Next(limits, old(Contents()), Extend(r, amount))
    {
      answer := Done;
      if !amount.NonNegative() {
        answer := ValueError;
      } else if r.id !in reservations || reservations[r.id].allowance != r.allowance {
        answer := ValueError;
      } else {
        var claim := reservations[r.id];
        if !claim.claimed.Plus(amount).AtMost(claim.allowance) {
          answer := BudgetExceeded;
        } else if !used.Plus(reserved).Plus(amount).AtMost(limits.total) {
          answer := BudgetExceeded;
        } else {
          reservations := reservations[r.id := claim.(claimed := claim.claimed.Plus(amount))];
          reserved := reserved.Plus(amount);
        }
      }
      StaysValid(Extend(r, amount));
    }

    method SettleReservation(r: Reservation) returns (answer: Answer)
      requires Valid()
      modifies this`episodesUsed, this`used, this`reserved, this`reservations
      ensures Valid()
      ensures answer == Reply(limits, old(Contents()), Settle(r))
      ensures Contents() == Next(limits, old(Contents()), Settle(r))
    {
      var found := r.id in reservations && reservations[r.id].allowance == r.allowance;
      var claimed := if found then reservations[r.id].claimed else Zero;
      reservations := reservations - {r.id};
      if !found {
        answer := ValueError;
      } else {
        reserved := reserved.Minus(claimed);
        if claimed != Zero {
          episodesUsed := episodesUsed + 1;
          used := used.Plus(claimed);
        }
        answer := Done;
      }
      StaysValid(Settle(r));
    }
  }
}
