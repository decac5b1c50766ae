/** What every run of the continuity protocol keeps. */
module ContinuityTheorems {
  import opened Wrappers
  import opened CampaignContinuity

  // --- Writer and validator agree ---

  lemma PutValid(scope: Scope, j: Journal, kind: Kind, s: State)
    requires ValidJournal(scope, j) && ValidState(scope, s) && ValidTransition(scope, j, Event(kind, s))
    ensures ValidJournal(scope, Put(j, kind, s))
  {
    assert Put(j, kind, s)[..|j|] == j;
  }

  lemma StopValid(scope: Scope, j: Journal, code: string, exhausted: bool)
    requires ValidJournal(scope, j) && j != [] && Text(code)
    requires exhausted && !Terminal(Last(j).phase) ==>
      || (code == "launch-budget-exhausted" && Last(j).launches == scope.maximumLaunches)
      || (code == "reconciliation-budget-exhausted" && Last(j).reconciliations == scope.maximumReconciliations)
    ensures ValidJournal(scope, Stop(j, code, exhausted))
  {
    var s := Last(j);
    var t := if Terminal(s.phase) then s else s.(phase := if exhausted then Exhausted else Blocked, blocker := Some(code));
    PutValid(scope, j, Stopped(code), t);
  }

  lemma RefusalIsText(scope: Scope, o: Observation, clock: Option<real>, evidence: set<Evidence>)
    ensures Refusal(scope, o, clock, evidence).Some? ==> Text(Refusal(scope, o, clock, evidence).value)
  {}

  lemma ObservedValid(scope: Scope, j: Journal, o: Observation)
    requires ValidJournal(scope, j) && j != [] && !Terminal(Last(j).phase) && Last(j).delivery.Some?
    ensures ValidJournal(scope, Put(j, AuthorityObserved(o), Last(j)))
  {
    hide ValidState;
    PutValid(scope, j, AuthorityObserved(o), Last(j));
  }

  lemma AllowedPermits(scope: Scope, o: Observation, clock: Option<real>, s: State)
    requires Refusal(scope, o, clock, RequiredEvidence(scope, s)).None? && s.delivery.Some?
    ensures PermitsDispatch(scope, Event(AuthorityObserved(o), s))
  {}

  /** An observation the writer acts on is one the validator will accept for dispatch. */
  lemma ObserveValid(scope: Scope, j: Journal, reply: ObserveReply, clock: Option<real>, evidence: set<Evidence>)
    requires ValidJournal(scope, j) && j != []
    requires !Terminal(Last(j).phase) && Last(j).delivery.Some? && evidence == RequiredEvidence(scope, Last(j))
    ensures var g := Observe(scope, j, reply, clock, evidence);
            && ValidJournal(scope, g.journal)
            && (g.allowed ==> reply.Observed? && g.journal == Put(j, AuthorityObserved(reply.observation), Last(j))
                              && PermitsDispatch(scope, g.journal[|g.journal| - 1]))
  {
    hide ValidJournal, PermitsDispatch, RequiredEvidence, Refusal;
    match reply
    case ObserveRaised(error) =>
      var code := Recorded(error).code;
      StopValid(scope, j, if code.Some? then code.value else "observation-unavailable", false);
    case ObserveMalformed =>
      StopValid(scope, j, "observation-malformed", false);
    case Observed(o) =>
      ObservedValid(scope, j, o);
      RefusalIsText(scope, o, clock, evidence);
      var r := Refusal(scope, o, clock, evidence);
      if r.Some? {
        StopValid(scope, Put(j, AuthorityObserved(o), Last(j)), r.value, false);
      } else {
        AllowedPermits(scope, o, clock, Last(j));
      }
  }

  /** The state in which an intent leaves the protocol, ready for its answer. */
  ghost predicate Asked(scope: Scope, j: Journal, a: Attempt) {
    && ValidJournal(scope, j) && j != []
    && j[|j| - 1].kind.Intent? && j[|j| - 1].kind.attempt == a
    && Last(j).selected.Some? && Last(j).reconciliations != 0
    && (a.Recovery? <==> Terminal(Last(j).phase))
  }

  lemma ReceiptStateValid(scope: Scope, s: State, r: Receipt)
    requires ValidState(scope, s) && s.selected.Some? && s.reconciliations != 0
    requires s.phase.Reconciling? || Terminal(s.phase)
    ensures ValidState(scope, ReceiptState(s, r))
  {}

  /** The event that would record an exception is refused exactly when its class name is not a proper text. */
  lemma UnnamedIsRefused(scope: Scope, j: Journal, a: Attempt, error: AdapterError)
    requires Asked(scope, j, a) && (Last(j).phase.Reconciling? || Terminal(Last(j).phase))
    ensures var e := Recorded(error);
            var t := UnansweredState(Last(j), e);
            ValidState(scope, t) && ValidTransition(scope, j, Event(Unanswered(a, e), t)) <==> Named(ReplyRaised(error))
  {}

  lemma ReceivedValid(scope: Scope, j: Journal, a: Attempt, r: Receipt)
    requires Asked(scope, j, a) && ReceiptBound(Last(j), r) && (Last(j).phase.Reconciling? || Terminal(Last(j).phase))
    ensures ValidJournal(scope, Put(j, Received(a, r), ReceiptState(Last(j), r)))
  {
    ReceiptStateValid(scope, Last(j), r);
    hide ValidState;
    PutValid(scope, j, Received(a, r), ReceiptState(Last(j), r));
  }

  lemma AnswerValid(scope: Scope, j: Journal, a: Attempt, reply: ReceiptReply)
    requires Asked(scope, j, a)
    requires Last(j).phase.Reconciling? || Terminal(Last(j).phase)
    ensures ValidJournal(scope, Answer(j, a, reply))
  {
    hide ValidTransition, ValidState, ReceiptBound, ValidJournal;
    match reply
    case ReplyRaised(error) =>
      UnnamedIsRefused(scope, j, a, error);
      var e := Recorded(error);
      if Text(error.name) { PutValid(scope, j, Unanswered(a, e), UnansweredState(Last(j), e)); }
    case ReplyMalformed => StopValid(scope, j, "launch-receipt-mismatch", false);
    case Replied(r) =>
      if ReceiptBound(Last(j), r) {
        ReceivedValid(scope, j, a, r);
      } else {
        StopValid(scope, j, "launch-receipt-mismatch", false);
      }
  }

  lemma SelectStepValid(scope: Scope, j: Journal)
    requires ValidJournal(scope, j) && j != [] && Last(j).phase.Waiting? && Last(j).delivery.Some?
    requires PermitsDispatch(scope, j[|j| - 1])
    ensures ValidJournal(scope, SelectStep(scope, j))
  {
    var s := Last(j);
    if EligibleIds(scope, s) == {} {
      StopValid(scope, j, "no-eligible-candidate", false);
    } else {
      var selection := SelectionOf(scope, s);
      PutValid(scope, j, CandidateSelected(selection), Choose(scope, s, selection));
    }
  }

  lemma LaunchIntentAsks(scope: Scope, j: Journal)
    requires ValidJournal(scope, j) && |j| >= 2 && Last(j).phase.Reconciling? && Last(j).launches < scope.maximumLaunches
    requires PermitsDispatch(scope, j[|j| - 1]) && AuthoritativeAbsence(j[|j| - 2].kind)
    ensures Asked(scope, LaunchIntent(j), Launch) && Last(LaunchIntent(j)).phase.Reconciling?
  {
    var s := Last(j);
    PutValid(scope, j, Intent(Launch, s.operation), s.(phase := Reconciling, launches := s.launches + 1, pending := true));
  }

  lemma LaunchStepValid(scope: Scope, j: Journal, env: Environment, evidence: set<Evidence>)
    requires ValidJournal(scope, j) && j != [] && Last(j).phase.Reconciling?
    requires evidence == RequiredEvidence(scope, Last(j)) && AuthoritativeAbsence(j[|j| - 1].kind)
    ensures ValidJournal(scope, LaunchStep(scope, j, env, evidence))
  {
    if Last(j).launches >= scope.maximumLaunches {
      StopValid(scope, j, "launch-budget-exhausted", true);
    } else {
      ObserveValid(scope, j, env.observeAgain, env.clockAgain, evidence);
      var gate := Observe(scope, j, env.observeAgain, env.clockAgain, evidence);
      if gate.allowed {
        assert gate.journal[|gate.journal| - 2] == j[|j| - 1];
        LaunchIntentAsks(scope, gate.journal);
        AnswerValid(scope, LaunchIntent(gate.journal), Launch, env.launch);
      }
    }
  }

  lemma ReconciliationIntentAsks(scope: Scope, j: Journal)
    requires ValidJournal(scope, j) && j != [] && (Last(j).phase.Selected? || Last(j).phase.Reconciling?)
    requires PermitsDispatch(scope, j[|j| - 1]) && Last(j).reconciliations < scope.maximumReconciliations
    ensures Asked(scope, ReconciliationIntent(j), Reconciliation) && Last(ReconciliationIntent(j)).phase.Reconciling?
  {
    var s := Last(j);
    PutValid(scope, j, Intent(Reconciliation, None), s.(phase := Reconciling, reconciliations := s.reconciliations + 1));
  }

  lemma ReconcileStepValid(scope: Scope, j: Journal, env: Environment, evidence: set<Evidence>)
    requires ValidJournal(scope, j) && j != [] && (Last(j).phase.Selected? || Last(j).phase.Reconciling?)
    requires PermitsDispatch(scope, j[|j| - 1]) && evidence == RequiredEvidence(scope, Last(j))
    ensures ValidJournal(scope, ReconcileStep(scope, j, env, evidence))
  {
    if Last(j).reconciliations >= scope.maximumReconciliations {
      StopValid(scope, j, "reconciliation-budget-exhausted", true);
    } else {
      ReconciliationIntentAsks(scope, j);
      var j0 := ReconciliationIntent(j);
      AnswerValid(scope, j0, Reconciliation, env.inspect);
      var j1 := Answer(j0, Reconciliation, env.inspect);
      if !Terminal(Last(j1).phase) && SaysAbsent(env.inspect) {
        AbsenceStays(scope, j0, env.inspect);
        LaunchStepValid(scope, j1, env, evidence);
      }
    }
  }

  lemma AbsenceStays(scope: Scope, j: Journal, reply: ReceiptReply)
    requires Asked(scope, j, Reconciliation) && SaysAbsent(reply) && Last(j).phase.Reconciling?
    ensures var r := Answer(j, Reconciliation, reply);
            Terminal(Last(r).phase) ||
            (Last(r).phase.Reconciling? && AuthoritativeAbsence(r[|r| - 1].kind) && RequiredEvidence(scope, Last(r)) == RequiredEvidence(scope, Last(j)))
  {}

  /** Whatever the adapter and the clock do, what `step` appends is accepted. */
  lemma StepValid(scope: Scope, j: Journal, env: Environment)
    requires ValidJournal(scope, j) && j != []
    ensures ValidJournal(scope, Step(scope, j, env))
  {
    var s := Last(j);
    if !Terminal(s.phase) && s.delivery.Some? {
      var evidence := RequiredEvidence(scope, s);
      ObserveValid(scope, j, env.observe, env.clock, evidence);
      var gate := Observe(scope, j, env.observe, env.clock, evidence);
      if gate.allowed {
        if s.phase.Waiting? {
          SelectStepValid(scope, gate.journal);
        } else {
          ReconcileStepValid(scope, gate.journal, env, evidence);
        }
      }
    }
  }

  /** An exception with an empty class name: the intent is spent, its answer is not recorded, and the step raises. */
  lemma BlankNameRaises(scope: Scope, j: Journal, env: Environment)
    requires j != [] && !Terminal(Last(j).phase) && Last(j).delivery.Some? && !Last(j).phase.Waiting?
    requires Observe(scope, j, env.observe, env.clock, RequiredEvidence(scope, Last(j))).allowed
    requires Last(j).reconciliations < scope.maximumReconciliations && env.inspect == ReplyRaised(AdapterError("", None))
    ensures StepRaises(scope, j, env)
    ensures var r := Step(scope, j, env);
            r[|r| - 1].kind == Intent(Reconciliation, None) && Last(r).reconciliations == Last(j).reconciliations + 1
  {
    hide RequiredEvidence, Refusal;
  }

  lemma RecoveryIntentAsks(scope: Scope, j: Journal)
    requires ValidJournal(scope, j) && j != [] && Last(j).pending && Last(j).recoveries < scope.maximumRecoveries
    ensures Asked(scope, RecoveryIntent(j), Recovery)
  {
    var s := Last(j);
    PutValid(scope, j, Intent(Recovery, s.operation),
             s.(phase := Blocked, blocker := Or(s.blocker, "recovery-only"), recoveries := s.recoveries + 1));
  }

  lemma RecoverValid(scope: Scope, j: Journal, inspect: ReceiptReply)
    requires ValidJournal(scope, j) && j != []
    ensures ValidJournal(scope, Recover(scope, j, inspect))
  {
    var s := Last(j);
    if s.pending {
      if s.recoveries >= scope.maximumRecoveries {
        if !j[|j| - 1].kind.RecoveryExhausted? {
          PutValid(scope, j, RecoveryExhausted, s.(phase := Exhausted, blocker := Or(s.blocker, "recovery-budget-exhausted")));
        }
      } else {
        RecoveryIntentAsks(scope, j);
        AnswerValid(scope, RecoveryIntent(j), Recovery, inspect);
      }
    }
  }

  lemma RecordDeliveryValid(scope: Scope, j: Journal, d: Delivery)
    requires ValidJournal(scope, j) && j != []
    ensures ValidJournal(scope, RecordDelivery(scope, j, d))
  {
    var s := Last(j);
    if s.delivery == Some(d) {
    } else if s.delivery.Some? || !s.phase.Waiting? {
      StopValid(scope, j, "delivery-conflict", false);
    } else if !DeliveryBound(scope, d) {
      StopValid(scope, j, "delivery-binding-mismatch", false);
    } else if !d.merged || !d.checksGreen {
      StopValid(scope, j, "delivery-incomplete", false);
    } else {
      PutValid(scope, j, DeliveryRecorded(d), s.(delivery := Some(d)));
    }
  }

  lemma RecordCandidateValid(scope: Scope, j: Journal, c: Candidate)
    requires ValidJournal(scope, j) && j != []
    ensures ValidJournal(scope, RecordCandidate(j, c))
  {
    var s := Last(j);
    if c.id in s.candidates && s.candidates[c.id] == c {
    } else if c.id in s.candidates || !s.phase.Waiting? {
      StopValid(scope, j, "candidate-conflict", false);
    } else {
      PutValid(scope, j, CandidateRecorded(c), s.(candidates := s.candidates[c.id := c]));
    }
  }

  // --- What an accepted journal means ---

  ghost predicate IsIntent(e: Event, a: Attempt) {
    e.kind.Intent? && e.kind.attempt == a
  }

  ghost function Count(j: Journal, a: Attempt): nat {
    if j == [] then 0 else Count(j[..|j| - 1], a) + if IsIntent(j[|j| - 1], a) then 1 else 0
  }

  /** An authoritative receipt that says whether the launch happened. */
  ghost predicate Settles(e: Event) {
    e.kind.Received? && e.kind.receipt.authoritative && (e.kind.receipt.status.Started? || e.kind.receipt.status.Absent?)
  }

  ghost predicate Unsettled(j: Journal) {
    exists i | 0 <= i < |j| :: IsIntent(j[i], Launch) && forall k | i < k < |j| :: !Settles(j[k])
  }

  ghost predicate ConfirmedStart(j: Journal) {
    exists i | 0 < i < |j| :: Confirms(j, i)
  }

  /** Event `i` is an authoritative STARTED receipt for the operation and candidate then selected. */
  ghost predicate Confirms(j: Journal, i: int)
    requires 0 < i < |j|
  {
    && j[i].kind.Received? && j[i].kind.receipt.authoritative && j[i].kind.receipt.status.Started?
    && ReceiptBound(j[i].checkpoint, j[i].kind.receipt)
  }

  lemma TransitionCounts(scope: Scope, j: Journal, e: Event)
    requires j != [] && ValidTransition(scope, j, e)
    ensures e.checkpoint.launches == Last(j).launches + (if IsIntent(e, Launch) then 1 else 0)
    ensures e.checkpoint.reconciliations == Last(j).reconciliations + (if IsIntent(e, Reconciliation) then 1 else 0)
    ensures e.checkpoint.recoveries == Last(j).recoveries + (if IsIntent(e, Recovery) then 1 else 0)
  {}

  /** The three budgets are spent exactly by their persisted intents. */
  lemma {:induction false} CountersCountIntents(scope: Scope, j: Journal)
    requires ValidJournal(scope, j) && j != []
    ensures Last(j).launches == Count(j, Launch) <= scope.maximumLaunches
    ensures Last(j).reconciliations == Count(j, Reconciliation) <= scope.maximumReconciliations
    ensures Last(j).recoveries == Count(j, Recovery) <= scope.maximumRecoveries
  {
    var before := j[..|j| - 1];
    if before != [] {
      CountersCountIntents(scope, before);
      TransitionCounts(scope, before, j[|j| - 1]);
    }
  }

  lemma TransitionPending(scope: Scope, j: Journal, e: Event)
    requires j != [] && ValidTransition(scope, j, e)
    ensures e.checkpoint.pending == (IsIntent(e, Launch) || (Last(j).pending && !Settles(e)))
  {}

  lemma UnsettledSnoc(j: Journal, e: Event)
    ensures Unsettled(j + [e]) <==> IsIntent(e, Launch) || (Unsettled(j) && !Settles(e))
  {
    var j' := j + [e];
    if IsIntent(e, Launch) {
      assert IsIntent(j'[|j|], Launch);
    } else if Unsettled(j') {
      var i :| 0 <= i < |j'| && IsIntent(j'[i], Launch) && forall k | i < k < |j'| :: !Settles(j'[k]);
      assert !Settles(j'[|j|]);
      assert IsIntent(j[i], Launch);
      forall k | i < k < |j| ensures !Settles(j[k]) { assert !Settles(j'[k]); }
    } else if !Settles(e) {
      forall i | 0 <= i < |j| && IsIntent(j[i], Launch) ensures exists k | i < k < |j| :: Settles(j[k]) {
        assert IsIntent(j'[i], Launch);
      }
    }
  }

  /** The outcome is pending exactly while a launch intent has no later settling receipt. */
  lemma {:induction false} PendingMeansUnsettled(scope: Scope, j: Journal)
    requires ValidJournal(scope, j) && j != []
    ensures Last(j).pending <==> Unsettled(j)
  {
    var before, e := j[..|j| - 1], j[|j| - 1];
    assert j == before + [e];
    UnsettledSnoc(before, e);
    if before != [] {
      PendingMeansUnsettled(scope, before);
      TransitionPending(scope, before, e);
    }
  }

  lemma TransitionLaunched(scope: Scope, j: Journal, e: Event)
    requires j != [] && ValidTransition(scope, j, e) && e.checkpoint.phase.Launched?
    requires ValidState(scope, Last(j)) && ValidState(scope, e.checkpoint)
    ensures Last(j).phase.Launched? || Confirms(j + [e], |j|)
  {}

  /** LAUNCHED rests on an authoritative STARTED receipt bound to what was selected. */
  lemma {:induction false} LaunchedIsConfirmed(scope: Scope, j: Journal)
    requires ValidJournal(scope, j) && j != [] && Last(j).phase.Launched?
    ensures ConfirmedStart(j)
  {
    var before, e := j[..|j| - 1], j[|j| - 1];
    assert j == before + [e];
    if before != [] {
      TransitionLaunched(scope, before, e);
      if Last(before).phase.Launched? {
        LaunchedIsConfirmed(scope, before);
        var i :| 0 < i < |before| && Confirms(before, i);
        assert Confirms(j, i);
      }
    }
  }

  // --- What later events cannot change ---

  lemma TransitionFixes(scope: Scope, j: Journal, e: Event)
    requires j != [] && ValidTransition(scope, j, e) && ValidState(scope, Last(j))
    ensures Fixed(Last(j), e.checkpoint)
  {
    SelectedIsNotWaiting(scope, Last(j));
    hide PermitsDispatch, EligibleIds, ReceiptBound, Text, ValidState, SelectionOf, Or, AuthoritativeAbsence, RequiredEvidence;
    if e.kind.CandidateRecorded? {
      assert e.checkpoint.candidates == Last(j).candidates[e.kind.candidate.id := e.kind.candidate];
    } else {
      assert e.checkpoint.candidates == Last(j).candidates;
    }
  }

  lemma SelectedIsNotWaiting(scope: Scope, s: State)
    requires ValidState(scope, s)
    ensures s.selected.Some? ==> !s.phase.Waiting?
  {}

  lemma IntentIsNotLaunched(scope: Scope, j: Journal)
    requires ValidJournal(scope, j) && j != [] && j[|j| - 1].kind.Intent?
    ensures !Last(j).phase.Launched?
  {}

  lemma TransitionCloses(scope: Scope, j: Journal, e: Event)
    requires j != [] && ValidJournal(scope, j) && ValidTransition(scope, j, e)
    ensures Closed(Last(j), e.checkpoint)
  {
    hide PermitsDispatch, EligibleIds, ReceiptBound, Text, ValidState;
    TransitionCounts(scope, j, e);
    if j[|j| - 1].kind.Intent? { IntentIsNotLaunched(scope, j); }
  }

  /** Delivery, selection, operation id and recorded candidates are fixed once set. */
  ghost predicate Fixed(s: State, t: State) {
    && (s.delivery.Some? ==> t.delivery == s.delivery)
    && (s.selected.Some? ==> t.selected == s.selected && t.operation == s.operation)
    && (forall k | k in s.candidates :: k in t.candidates && t.candidates[k] == s.candidates[k])
  }

  /** Terminal phases stay terminal and launch no more; LAUNCHED changes nothing any more. */
  ghost predicate Closed(s: State, t: State) {
    && (Terminal(s.phase) ==> Terminal(t.phase) && t.launches == s.launches && t.reconciliations == s.reconciliations)
    && (s.phase.Launched? ==> t == s)
    && s.launches <= t.launches && s.reconciliations <= t.reconciliations && s.recoveries <= t.recoveries
  }

  lemma {:induction false} PrefixValid(scope: Scope, j: Journal, n: nat)
    requires ValidJournal(scope, j) && n <= |j|
    ensures ValidJournal(scope, j[..n])
    decreases |j|
  {
    if n < |j| {
      PrefixValid(scope, j[..|j| - 1], n);
      assert j[..|j| - 1][..n] == j[..n];
    } else {
      assert j[..n] == j;
    }
  }

  /** Across any stretch of an accepted journal. */
  lemma {:induction false} LaterCheckpoints(scope: Scope, j: Journal, i: nat)
    requires ValidJournal(scope, j) && i < |j|
    ensures Fixed(j[i].checkpoint, Last(j)) && Closed(j[i].checkpoint, Last(j))
    decreases |j|
  {
    if i < |j| - 1 {
      var before := j[..|j| - 1];
      LaterCheckpoints(scope, before, i);
      TransitionFixes(scope, before, j[|j| - 1]);
      TransitionCloses(scope, before, j[|j| - 1]);
    }
  }
}
