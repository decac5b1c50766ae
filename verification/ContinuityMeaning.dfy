/** What each call of the continuity protocol decides, and what an accepted journal says, in the protocol's own terms. */
module ContinuityMeaning {
  import opened Wrappers
  import opened Identifiers
  import opened CampaignContinuity
  import opened ContinuityTheorems

  // --- The choice of a candidate ---

  /** An allowed, reversible candidate for the scope's own subject and authority, to be adopted or adapted. */
  ghost predicate Fit(scope: Scope, c: Candidate) {
    && c.id in scope.allowed && c.reversible && c.disposition in {Adopt, Adapt}
    && (c.subject, c.scopeDigest, c.authority) == (scope.subject, scope.digest, scope.authority)
  }

  /** `k` is chosen before `n`: a higher priority, or the same and the earlier identifier. */
  ghost predicate Outranks(candidates: map<Id, Candidate>, k: Id, n: Id)
    requires k in candidates && n in candidates
  {
    candidates[k].priority > candidates[n].priority || (candidates[k].priority == candidates[n].priority && Leq(k, n))
  }

  ghost predicate IsBest(scope: Scope, candidates: map<Id, Candidate>, k: Id) {
    && k in candidates && Fit(scope, candidates[k])
    && forall n | n in candidates && Fit(scope, candidates[n]) :: Outranks(candidates, k, n)
  }

  lemma EligibleExactly(scope: Scope, s: State, k: Id)
    ensures k in EligibleIds(scope, s) <==> k in s.candidates && Fit(scope, s.candidates[k])
  {}

  /** The selection names the best candidate, all that were eligible, and all that were passed over. */
  lemma SelectionExactly(scope: Scope, s: State)
    requires EligibleIds(scope, s) != {}
    ensures var r := SelectionOf(scope, s);
            && IsBest(scope, s.candidates, r.selected)
            && (forall k :: k in r.eligible <==> k in s.candidates && Fit(scope, s.candidates[k]))
            && (forall k :: k in r.notSelected <==> k in s.candidates && k != r.selected)
  {
    var best := SelectionOf(scope, s).selected;
    forall n | n in s.candidates && Fit(scope, s.candidates[n]) ensures Outranks(s.candidates, best, n) {
      EligibleExactly(scope, s, n);
      assert Before(PriorityKey(s.candidates), best, n);
    }
  }

  ghost predicate ChoseBest(scope: Scope, s: State) {
    s.selected.Some? ==> IsBest(scope, s.candidates, s.selected.value)
  }

  lemma TransitionChoosesBest(scope: Scope, j: Journal, e: Event)
    requires j != [] && ValidTransition(scope, j, e) && ValidState(scope, Last(j)) && ChoseBest(scope, Last(j))
    ensures ChoseBest(scope, e.checkpoint)
  {
    SelectedIsNotWaiting(scope, Last(j));
    hide ValidState, IsBest, PermitsDispatch, Text, Or, ReceiptBound, SelectionOf, EligibleIds;
    if e.kind.CandidateSelected? {
      SelectionExactly(scope, Last(j));
    } else {
      assert e.checkpoint.selected == Last(j).selected;
      assert e.checkpoint.selected.Some? ==> e.checkpoint.candidates == Last(j).candidates;
    }
  }

  /** In every accepted journal the selected candidate is the best of all that were ever recorded. */
  lemma {:induction false} SelectionIsBest(scope: Scope, j: Journal)
    requires ValidJournal(scope, j) && j != []
    ensures ChoseBest(scope, Last(j))
    decreases |j|
  {
    hide ChoseBest, ValidState, ValidTransition;
    if |j| == 1 {
      StartsUnselected(scope, j);
    } else {
      SelectionIsBest(scope, j[..|j| - 1]);
      LastIsValid(scope, j[..|j| - 1]);
      TransitionChoosesBest(scope, j[..|j| - 1], j[|j| - 1]);
    }
  }

  lemma LastIsValid(scope: Scope, j: Journal)
    requires ValidJournal(scope, j) && j != []
    ensures ValidState(scope, Last(j))
  {}

  /** A journal starts waiting, with nothing recorded and nothing spent. */
  lemma StartsUnselected(scope: Scope, j: Journal)
    requires ValidJournal(scope, j) && |j| == 1
    ensures Last(j) == State(scope, Waiting, None, map[], None, None, 0, 0, 0, false, None)
    ensures ChoseBest(scope, Last(j))
  {
    assert j[..0] == [];
  }

  // --- Authority ---

  /** The observation binds the scope, comes from someone else, permits the launch, and verifies exactly the evidence. */
  ghost predicate Binding(scope: Scope, s: State, o: Observation) {
    && (o.subject, o.scopeDigest, o.authority, o.owner) == (scope.subject, scope.digest, scope.authority, scope.owner)
    && o.observer != scope.owner && o.launchAllowed
    && forall x :: x in o.verified <==>
         || x in scope.evidence
         || (s.delivery.Some? && x in s.delivery.value.evidence)
         || (s.selected.Some? && s.selected.value in s.candidates && x in s.candidates[s.selected.value].evidence)
  }

  /** A binding observation, neither from the future nor too old, while the authority has not expired. */
  ghost predicate Authorized(scope: Scope, s: State, reply: ObserveReply, clock: Option<real>) {
    && reply.Observed? && clock.Some? && Binding(scope, s, reply.observation)
    && 0.0 <= clock.value < scope.expiresAt as real
    && reply.observation.observedAt as real <= clock.value
    && clock.value <= reply.observation.observedAt as real + scope.observationMaxAge as real
  }

  lemma EvidenceExactly(scope: Scope, s: State, verified: set<Evidence>)
    ensures verified == RequiredEvidence(scope, s) <==>
              forall x :: x in verified <==>
                || x in scope.evidence
                || (s.delivery.Some? && x in s.delivery.value.evidence)
                || (s.selected.Some? && s.selected.value in s.candidates && x in s.candidates[s.selected.value].evidence)
  {
    var required := RequiredEvidence(scope, s);
    assert forall x :: x in required <==>
      || x in scope.evidence
      || (s.delivery.Some? && x in s.delivery.value.evidence)
      || (s.selected.Some? && s.selected.value in s.candidates && x in s.candidates[s.selected.value].evidence);
  }

  /** Dispatch goes on exactly with authority; without it the campaign is blocked, with a reason. */
  lemma AuthorityDecides(scope: Scope, j: Journal, reply: ObserveReply, clock: Option<real>)
    requires j != [] && !Terminal(Last(j).phase)
    ensures var g := Observe(scope, j, reply, clock, RequiredEvidence(scope, Last(j)));
            && (g.allowed <==> Authorized(scope, Last(j), reply, clock))
            && (g.allowed ==> Last(g.journal) == Last(j) && g.journal == j + [Event(AuthorityObserved(reply.observation), Last(j))])
            && (!g.allowed ==> exists code :: Text(code) && Last(g.journal) == Last(j).(phase := Blocked, blocker := Some(code)))
  {
    var evidence := RequiredEvidence(scope, Last(j));
    if reply.Observed? {
      EvidenceExactly(scope, Last(j), reply.observation.verified);
      RefusalIsText(scope, reply.observation, clock, evidence);
    }
    hide RequiredEvidence;
    var g := Observe(scope, j, reply, clock, evidence);
    if !g.allowed {
      assert Text(Last(g.journal).blocker.value);
    }
  }

  /** How many of the checks on an observation pass, in their order, before the first that fails. */
  ghost predicate PassesFirst(scope: Scope, s: State, o: Observation, clock: Option<real>, n: nat) {
    && (n > 0 ==> clock.Some? && clock.value >= 0.0)
    && (n > 1 ==> clock.value < scope.expiresAt as real)
    && (n > 2 ==> o.subject == scope.subject)
    && (n > 3 ==> (o.scopeDigest, o.owner) == (scope.digest, scope.owner))
    && (n > 4 ==> o.authority == scope.authority)
    && (n > 5 ==> o.launchAllowed)
    && (n > 6 ==> o.observedAt as real <= clock.value <= o.observedAt as real + scope.observationMaxAge as real)
    && (n > 7 ==> o.observer != scope.owner)
    && (n > 8 ==> Binding(scope, s, o))
  }

  const Reasons: seq<string> := [
    "clock-unavailable", "authority-expired", "subject-changed", "scope-changed", "authority-changed",
    "authority-denied", "observation-stale", "observer-not-independent", "evidence-mismatch"]

  /** An observation is refused for the first check that fails. */
  lemma RefusedForFirstReason(scope: Scope, s: State, o: Observation, clock: Option<real>, n: nat)
    requires n < 9 && PassesFirst(scope, s, o, clock, n) && !PassesFirst(scope, s, o, clock, n + 1)
    ensures Refusal(scope, o, clock, RequiredEvidence(scope, s)) == Some(Reasons[n])
  {
    EvidenceExactly(scope, s, o.verified);
    hide RequiredEvidence;
  }

  lemma AtPosition(scope: Scope, j: Journal, i: nat)
    requires ValidJournal(scope, j) && i < |j|
    ensures ValidTransition(scope, j[..i], j[i]) && ValidState(scope, j[i].checkpoint)
  {
    hide ValidTransition, ValidState;
    PrefixValid(scope, j, i + 1);
    assert j[..i + 1][..i] == j[..i];
  }

  /** Every selection and every reconciliation or launch intent directly follows a binding observation. */
  lemma DispatchIsAuthorized(scope: Scope, j: Journal, i: nat)
    requires ValidJournal(scope, j) && i < |j|
    requires j[i].kind.CandidateSelected? || (j[i].kind.Intent? && !j[i].kind.attempt.Recovery?)
    ensures i > 0 && j[i - 1].kind.AuthorityObserved? && Binding(scope, j[i - 1].checkpoint, j[i - 1].kind.observation)
    ensures j[i - 1].kind.observation.observedAt < scope.expiresAt
  {
    hide ValidJournal, RequiredEvidence, Text;
    AtPosition(scope, j, i);
    assert j[..i] != [] && j[..i][i - 1] == j[i - 1];
    assert PermitsDispatch(scope, j[i - 1]);
    EvidenceExactly(scope, j[i - 1].checkpoint, j[i - 1].kind.observation.verified);
  }

  /** Every answer directly follows its own intent, and a receipt is for the selected operation and candidate version. */
  lemma AnswerFollowsIntent(scope: Scope, j: Journal, i: nat)
    requires ValidJournal(scope, j) && i < |j| && (j[i].kind.Received? || j[i].kind.Unanswered?)
    ensures i > 0 && j[i - 1].kind.Intent? && j[i - 1].kind.attempt == j[i].kind.attempt
    ensures j[i].kind.Received? ==>
              var s := j[i - 1].checkpoint;
              && s.selected.Some? && s.selected.value in s.candidates && s.operation == Some(j[i].kind.receipt.operation)
              && j[i].kind.receipt.candidateVersion == s.candidates[s.selected.value].version
  {
    hide ValidJournal, RequiredEvidence, Text, PermitsDispatch;
    AtPosition(scope, j, i);
  }

  // --- What the calls decide ---

  /** The state after a receipt or its absence, from the state at the intent. */
  ghost predicate Settles(s: State, reply: ReceiptReply, t: State) {
    match reply
    case ReplyMalformed => Blocks(s, "launch-receipt-mismatch", t)
    case ReplyRaised(error) =>
      if Text(error.name) && error.code.Some? && Text(error.code.value) then Blocks(s, error.code.value, t) else t == s
    case Replied(r) =>
      if !ReceiptBound(s, r) then Blocks(s, "launch-receipt-mismatch", t)
      else if r.status == Denied then t == s.(phase := Blocked, blocker := if s.blocker.Some? then s.blocker else Some("launch-denied"))
      else if r.authoritative && r.status == Started then t == s.(phase := Launched, pending := false)
      else if r.authoritative && r.status == Absent then t == s.(pending := false)
      else t == s
  }

  /** A stop: blocked for the reason, unless the campaign had ended before. */
  ghost predicate Blocks(s: State, code: string, t: State) {
    t == if Terminal(s.phase) then s else s.(phase := Blocked, blocker := Some(code))
  }

  /** A stop is recorded with its reason. */
  ghost predicate Stops(j: Journal, code: string, r: Journal)
    requires j != []
  {
    r != [] && r == j + [Event(Stopped(code), Last(r))] && Blocks(Last(j), code, Last(r))
  }

  /** An answer is recorded as it came: the receipt, or the exception's class name with a proper code. */
  lemma AnswerRecords(j: Journal, a: Attempt, reply: ReceiptReply)
    requires j != []
    ensures var r := Answer(j, a, reply);
            match reply
            case ReplyMalformed => Stops(j, "launch-receipt-mismatch", r)
            case ReplyRaised(e) =>
              if !Text(e.name) then r == j
              else r == j + [Event(Unanswered(a, AdapterError(e.name, if e.code.Some? && Text(e.code.value) then e.code else None)), Last(r))]
            case Replied(receipt) =>
              if ReceiptBound(Last(j), receipt) then r == j + [Event(Received(a, receipt), Last(r))]
              else Stops(j, "launch-receipt-mismatch", r)
  {}

  lemma AnswerSettles(j: Journal, a: Attempt, reply: ReceiptReply)
    requires j != []
    ensures Settles(Last(j), reply, Last(Answer(j, a, reply)))
  {}

  /** `record_delivery`: a repeated delivery changes nothing; a complete one that binds is recorded; anything else stops. */
  lemma DeliveryOutcome(scope: Scope, j: Journal, d: Delivery)
    requires j != []
    ensures var s, t := Last(j), Last(RecordDelivery(scope, j, d));
            if s.delivery == Some(d) then RecordDelivery(scope, j, d) == j
            else if s.delivery.Some? || s.phase != Waiting then Stops(j, "delivery-conflict", RecordDelivery(scope, j, d))
            else if (d.id, d.subject, d.scopeDigest) != (scope.delivery, scope.subject, scope.digest)
            then Stops(j, "delivery-binding-mismatch", RecordDelivery(scope, j, d))
            else if !(d.merged && d.checksGreen) then Stops(j, "delivery-incomplete", RecordDelivery(scope, j, d))
            else t == s.(delivery := Some(d)) && RecordDelivery(scope, j, d) == j + [Event(DeliveryRecorded(d), t)]
  {}

  /** `record_candidate`: a repeated candidate changes nothing; a new one is recorded while waiting; anything else stops. */
  lemma CandidateOutcome(j: Journal, c: Candidate)
    requires j != []
    ensures var s, t := Last(j), Last(RecordCandidate(j, c));
            if c.id in s.candidates && s.candidates[c.id] == c then RecordCandidate(j, c) == j
            else if c.id in s.candidates || s.phase != Waiting then Stops(j, "candidate-conflict", RecordCandidate(j, c))
            else t == s.(candidates := s.candidates[c.id := c]) && RecordCandidate(j, c) == j + [Event(CandidateRecorded(c), t)]
  {}

  /** `recover`: only a pending outcome is inspected, within the budget, and what the receipt says is taken over. */
  lemma RecoverOutcome(scope: Scope, j: Journal, inspect: ReceiptReply)
    requires j != []
    ensures var s, t := Last(j), Last(Recover(scope, j, inspect));
            if !s.pending then Recover(scope, j, inspect) == j
            else if s.recoveries >= scope.maximumRecoveries then
              if j[|j| - 1].kind == RecoveryExhausted then Recover(scope, j, inspect) == j
              else
                && Recover(scope, j, inspect) == j + [Event(RecoveryExhausted, t)]
                && t == s.(phase := Exhausted, blocker := if s.blocker.Some? then s.blocker else Some("recovery-budget-exhausted"))
            else Settles(s.(phase := Blocked, recoveries := s.recoveries + 1,
                            blocker := if s.blocker.Some? then s.blocker else Some("recovery-only")), inspect, t)
  {
    AnswerSettles(RecoveryIntent(j), Recovery, inspect);
    hide Settles;
  }

  /** The launch half of a step, from the state after an authoritative absence. */
  ghost predicate Launches(scope: Scope, s: State, env: Environment, t: State) {
    if s.launches >= scope.maximumLaunches then t == s.(phase := Exhausted, blocker := Some("launch-budget-exhausted"))
    else if !Authorized(scope, s, env.observeAgain, env.clockAgain)
    then exists code :: Text(code) && t == s.(phase := Blocked, blocker := Some(code))
    else Settles(s.(launches := s.launches + 1, pending := true), env.launch, t)
  }

  lemma LaunchOutcome(scope: Scope, j: Journal, env: Environment)
    requires j != [] && Last(j).phase.Reconciling?
    ensures Launches(scope, Last(j), env, Last(LaunchStep(scope, j, env, RequiredEvidence(scope, Last(j)))))
  {
    hide RequiredEvidence, Authorized, Settles, Observe;
    if Last(j).launches < scope.maximumLaunches {
      var evidence := RequiredEvidence(scope, Last(j));
      AuthorityDecides(scope, j, env.observeAgain, env.clockAgain);
      var gate := Observe(scope, j, env.observeAgain, env.clockAgain, evidence);
      AnswerSettles(LaunchIntent(gate.journal), Launch, env.launch);
    }
  }

  /** The reconciliation half of a step. */
  ghost predicate Reconciles(scope: Scope, s: State, env: Environment, t: State) {
    if s.reconciliations >= scope.maximumReconciliations
    then t == s.(phase := Exhausted, blocker := Some("reconciliation-budget-exhausted"))
    else
      var asked := s.(phase := Reconciling, reconciliations := s.reconciliations + 1);
      if env.inspect.Replied? && ReceiptBound(asked, env.inspect.receipt)
         && env.inspect.receipt.authoritative && env.inspect.receipt.status == Absent
      then Launches(scope, asked.(pending := false), env, t)
      else Settles(asked, env.inspect, t)
  }

  lemma ReconcileOutcome(scope: Scope, j: Journal, env: Environment)
    requires j != [] && (Last(j).phase.Selected? || Last(j).phase.Reconciling?)
    ensures Reconciles(scope, Last(j), env, Last(ReconcileStep(scope, j, env, RequiredEvidence(scope, Last(j)))))
  {
    hide Launches, LaunchStep;
    var s := Last(j);
    if s.reconciliations < scope.maximumReconciliations {
      var j0 := ReconciliationIntent(j);
      var j1 := Answer(j0, Reconciliation, env.inspect);
      AnswerSettles(j0, Reconciliation, env.inspect);
      if env.inspect.Replied? && ReceiptBound(Last(j0), env.inspect.receipt) && SaysAbsent(env.inspect) {
        assert RequiredEvidence(scope, Last(j1)) == RequiredEvidence(scope, s);
        LaunchOutcome(scope, j1, env);
      }
    }
  }

  /** `step`: nothing without a delivery or after the end; blocked without authority; then select, or reconcile and launch. */
  lemma StepOutcome(scope: Scope, j: Journal, env: Environment)
    requires j != []
    ensures var s, t := Last(j), Last(Step(scope, j, env));
            if Terminal(s.phase) || s.delivery.None? then Step(scope, j, env) == j
            else if !Authorized(scope, s, env.observe, env.clock)
            then exists code :: Text(code) && t == s.(phase := Blocked, blocker := Some(code))
            else if s.phase != Waiting then Reconciles(scope, s, env, t)
            else if forall k | k in s.candidates :: !Fit(scope, s.candidates[k]) then Blocks(s, "no-eligible-candidate", t)
            else exists k :: IsBest(scope, s.candidates, k)
                   && t == s.(phase := Selected, selected := Some(k), operation := Some(Operation(scope, s.delivery.value, s.candidates[k])))
  {
    hide RequiredEvidence, Authorized, Observe, Reconciles, ReconcileStep, IsBest;
    var s := Last(j);
    if !Terminal(s.phase) && s.delivery.Some? {
      AuthorityDecides(scope, j, env.observe, env.clock);
      var gate := Observe(scope, j, env.observe, env.clock, RequiredEvidence(scope, s));
      if gate.allowed && s.phase != Waiting {
        ReconcileOutcome(scope, gate.journal, env);
      } else if gate.allowed {
        SelectOutcome(scope, gate.journal);
      }
    }
  }

  lemma SelectOutcome(scope: Scope, j: Journal)
    requires j != [] && Last(j).phase.Waiting? && Last(j).delivery.Some?
    ensures var s, t := Last(j), Last(SelectStep(scope, j));
            if forall k | k in s.candidates :: !Fit(scope, s.candidates[k]) then Blocks(s, "no-eligible-candidate", t)
            else exists k :: IsBest(scope, s.candidates, k)
                   && t == s.(phase := Selected, selected := Some(k), operation := Some(Operation(scope, s.delivery.value, s.candidates[k])))
  {
    var s := Last(j);
    assert EligibleIds(scope, s) == {} <==> forall k | k in s.candidates :: !Fit(scope, s.candidates[k]) by {
      forall k | k in s.candidates ensures k in EligibleIds(scope, s) <==> Fit(scope, s.candidates[k]) {}
    }
    if EligibleIds(scope, s) != {} { SelectionExactly(scope, s); }
    hide IsBest, SelectionOf, EligibleIds;
  }

  // --- What every accepted checkpoint says ---

  lemma CheckpointMeaning(scope: Scope, j: Journal, i: nat)
    requires ValidJournal(scope, j) && i < |j|
    ensures var s := j[i].checkpoint;
            && s.scope == scope
            && (s.phase in {Blocked, Exhausted} ==> s.blocker.Some? && Text(s.blocker.value))
            && (s.delivery.Some? ==>
                  var d := s.delivery.value;
                  (d.id, d.subject, d.scopeDigest) == (scope.delivery, scope.subject, scope.digest) && d.merged && d.checksGreen)
            && (forall k | k in s.candidates :: s.candidates[k].id == k)
            && (s.phase in {Selected, Reconciling, Launched} ==> s.selected.Some?)
            && (s.selected.Some? ==>
                  && s.phase != Waiting && s.delivery.Some? && s.selected.value in s.candidates
                  && Fit(scope, s.candidates[s.selected.value])
                  && s.operation == Some(Operation(scope, s.delivery.value, s.candidates[s.selected.value])))
            && (s.selected.None? ==> s.operation.None? && s.launches == s.reconciliations == s.recoveries == 0)
            && (s.pending ==> s.launches > 0 && s.phase != Launched)
            && (s.phase == Selected ==> s.reconciliations == 0) && (s.launches > 0 ==> s.reconciliations > 0)
            && (s.phase in {Reconciling, Launched} ==> s.reconciliations > 0)
            && (s.recoveries > 0 ==> s.phase in {Launched, Blocked, Exhausted})
            && s.launches <= scope.maximumLaunches && s.reconciliations <= scope.maximumReconciliations
            && s.recoveries <= scope.maximumRecoveries
  {
    hide ValidJournal, ValidTransition, Text;
    AtPosition(scope, j, i);
  }
}
