/**
 The controller object: it owns the event files and remembers the history it has seen. Each
 method is one locked transaction; adapter and clock answers are its parameters.
 */
module ContinuityController {
  import opened Wrappers
  import opened CampaignContinuity
  import opened ContinuityTheorems

  class Controller {
    const scope: Scope
    /** The event files, in order. */
    var journal: Journal
    /** The history already observed. A chained digest of its last event stands for all of it. */
    var seen: Journal

    ghost predicate Valid()
      reads this
    {
      ValidScope(scope) && journal != [] && ValidJournal(scope, journal) && seen <= journal
    }

    constructor (scope: Scope)
      requires ValidScope(scope)
      ensures Valid() && this.scope == scope
      ensures journal == [Event(Initialized(scope), Initial(scope))]
    {
      this.scope := scope;
      journal := [Event(Initialized(scope), Initial(scope))];
      seen := [Event(Initialized(scope), Initial(scope))];
      new;
      PutValid(scope, [], Initialized(scope), Initial(scope));
    }

    /** `_events`: re-derive every checkpoint and compare with the remembered history. */
    method Events() returns (ok: bool)
      modifies this`seen
      ensures ok <==> journal != [] && ValidJournal(scope, journal) && old(seen) <= journal
      ensures seen == if ok then journal else old(seen)
    {
      var i := 0;
      while i < |journal|
        invariant 0 <= i <= |journal| && seen == old(seen)
        invariant ValidJournal(scope, journal[..i])
      {
        if !ValidState(scope, journal[i].checkpoint) || !ValidTransition(scope, journal[..i], journal[i]) {
          RejectedPrefix(scope, journal, i);
          return false;
        }
        assert journal[..i + 1][..i] == journal[..i];
        i := i + 1;
      }
      assert journal[..i] == journal;
      if journal == [] || !(seen <= journal) {
        return false;
      }
      seen := journal;
      ok := true;
    }

    /** `_append`: an event that cannot explain its checkpoint is refused. */
    method Append(kind: Kind, s: State) returns (ok: bool)
      requires Valid()
      modifies this
      ensures Valid()
      ensures ok <==> ValidState(scope, s) && ValidTransition(scope, old(journal), Event(kind, s))
      ensures journal == if ok then Put(old(journal), kind, s) else old(journal)
    {
      var readable := Events();
      if !ValidState(scope, s) || !ValidTransition(scope, journal, Event(kind, s)) {
        return false;
      }
      PutValid(scope, journal, kind, s);
      journal := journal + [Event(kind, s)];
      seen := journal;
      ok := true;
    }

    method DoStop(code: string, exhausted: bool) returns (ok: bool)
      requires Valid() && Text(code)
      requires exhausted && !Terminal(Last(journal).phase) ==>
        || (code == "launch-budget-exhausted" && Last(journal).launches == scope.maximumLaunches)
        || (code == "reconciliation-budget-exhausted" && Last(journal).reconciliations == scope.maximumReconciliations)
      modifies this
      ensures Valid() && ok && journal == Stop(old(journal), code, exhausted)
    {
      StopValid(scope, journal, code, exhausted);
      var s := Last(journal);
      var t := if Terminal(s.phase) then s else s.(phase := if exhausted then Exhausted else Blocked, blocker := Some(code));
      AppendedValid(scope, journal, Stopped(code), t);
      ok := Append(Stopped(code), t);
    }

    /** `_observe` */
    method DoObserve(reply: ObserveReply, clock: Option<real>) returns (ok: bool, allowed: bool)
      requires Valid() && !Terminal(Last(journal).phase) && Last(journal).delivery.Some?
      modifies this
      ensures Valid() && ok
      ensures Gate(journal, allowed) == Observe(scope, old(journal), reply, clock, RequiredEvidence(scope, Last(old(journal))))
    {
      var evidence := RequiredEvidence(scope, Last(journal));
      allowed := false;
      match reply {
        case ObserveRaised(error) =>
          var code := Recorded(error).code;
          ok := DoStop(if code.Some? then code.value else "observation-unavailable", false);
        case ObserveMalformed =>
          ok := DoStop("observation-malformed", false);
        case Observed(o) =>
          ok := Append(AuthorityObserved(o), Last(journal));
          RefusalIsText(scope, o, clock, evidence);
          var refusal := Refusal(scope, o, clock, evidence);
          if refusal.Some? {
            ok := DoStop(refusal.value, false);
          } else {
            allowed := true;
          }
      }
    }

    /** The answer to the intent just persisted: `_unknown` or `_receipt`. */
    method DoAnswer(a: Attempt, reply: ReceiptReply) returns (ok: bool)
      requires Valid() && Asked(scope, journal, a)
      requires Last(journal).phase.Reconciling? || Terminal(Last(journal).phase)
      modifies this
      ensures Valid() && journal == Answer(old(journal), a, reply)
      ensures ok <==> Named(reply)
    {
      hide ValidTransition, ValidState;
      var s := Last(journal);
      AnswerValid(scope, journal, a, reply);
      match reply {
        case ReplyRaised(error) =>
          var e := Recorded(error);
          UnnamedIsRefused(scope, journal, a, error);
          ok := Append(Unanswered(a, e), UnansweredState(s, e));
        case ReplyMalformed =>
          ok := DoStop("launch-receipt-mismatch", false);
        case Replied(r) =>
          if ReceiptBound(s, r) {
            AppendedValid(scope, journal, Received(a, r), ReceiptState(s, r));
            ok := Append(Received(a, r), ReceiptState(s, r));
          } else {
            ok := DoStop("launch-receipt-mismatch", false);
          }
      }
    }

    /**
     `step`: whatever the adapter does, the journal is the specified one; the validator refuses an
     append, and the call raises, exactly when an exception without a proper class name is to be recorded.
     */
    method DoStep(env: Environment) returns (ok: bool)
      requires Valid()
      modifies this
      ensures Valid() && journal == Step(scope, old(journal), env)
      ensures ok <==> !StepRaises(scope, old(journal), env)
    {
      ok := true;
      var s := Last(journal);
      if Terminal(s.phase) || s.delivery.None? {
        return;
      }
      ObserveValid(scope, journal, env.observe, env.clock, RequiredEvidence(scope, s));
      var allowed: bool;
      ok, allowed := DoObserve(env.observe, env.clock);
      if !allowed {
        return;
      }
      if s.phase.Waiting? {
        ok := DoSelect();
      } else {
        ok := DoReconcile(env);
      }
    }

    method DoSelect() returns (ok: bool)
      requires Valid() && Last(journal).phase.Waiting? && Last(journal).delivery.Some? && PermitsDispatch(scope, journal[|journal| - 1])
      modifies this
      ensures Valid() && ok && journal == SelectStep(scope, old(journal))
    {
      hide ValidTransition, ValidState;
      SelectStepValid(scope, journal);
      var s := Last(journal);
      if EligibleIds(scope, s) == {} {
        ok := DoStop("no-eligible-candidate", false);
      } else {
        var selection := SelectionOf(scope, s);
        AppendedValid(scope, journal, CandidateSelected(selection), Choose(scope, s, selection));
        ok := Append(CandidateSelected(selection), Choose(scope, s, selection));
      }
    }

    method DoReconcile(env: Environment) returns (ok: bool)
      requires Valid() && (Last(journal).phase.Selected? || Last(journal).phase.Reconciling?)
      requires PermitsDispatch(scope, journal[|journal| - 1])
      modifies this
      ensures Valid() && journal == ReconcileStep(scope, old(journal), env, RequiredEvidence(scope, Last(old(journal))))
      ensures ok <==> !ReconcileRaises(scope, old(journal), env, RequiredEvidence(scope, Last(old(journal))))
    {
      hide ValidTransition, ValidState, LaunchStep, LaunchRaises, PermitsDispatch, RequiredEvidence, Asked;
      if Last(journal).reconciliations >= scope.maximumReconciliations {
        CountersCountIntents(scope, journal);
        ok := DoStop("reconciliation-budget-exhausted", true);
        return;
      }
      IntentKeepsEvidence(scope, journal);
      PersistReconciliation();
      ghost var asked := journal;
      ok := DoAnswer(Reconciliation, env.inspect);
      if !ok || Terminal(Last(journal).phase) || !SaysAbsent(env.inspect) {
        return;
      }
      AbsenceStays(scope, asked, env.inspect);
      ok := DoLaunch(env);
    }

    method PersistReconciliation()
      requires Valid() && (Last(journal).phase.Selected? || Last(journal).phase.Reconciling?)
      requires PermitsDispatch(scope, journal[|journal| - 1]) && Last(journal).reconciliations < scope.maximumReconciliations
      modifies this
      ensures Valid() && journal == ReconciliationIntent(old(journal)) && Asked(scope, journal, Reconciliation)
      ensures Last(journal).phase.Reconciling? && Last(journal).delivery.Some?
    {
      hide ValidTransition;
      ReconciliationIntentAsks(scope, journal);
      var s := Last(journal);
      var t := s.(phase := Reconciling, reconciliations := s.reconciliations + 1);
      AppendedValid(scope, journal, Intent(Reconciliation, None), t);
      var _ := Append(Intent(Reconciliation, None), t);
    }

    method DoLaunch(env: Environment) returns (ok: bool)
      requires Valid() && Last(journal).phase.Reconciling? && Last(journal).delivery.Some?
      requires AuthoritativeAbsence(journal[|journal| - 1].kind)
      modifies this
      ensures Valid() && journal == LaunchStep(scope, old(journal), env, RequiredEvidence(scope, Last(old(journal))))
      ensures ok <==> !LaunchRaises(scope, old(journal), env, RequiredEvidence(scope, Last(old(journal))))
    {
      hide ValidTransition;
      if Last(journal).launches >= scope.maximumLaunches {
        ok := DoStop("launch-budget-exhausted", true);
        return;
      }
      ghost var before := journal;
      ObserveValid(scope, journal, env.observeAgain, env.clockAgain, RequiredEvidence(scope, Last(journal)));
      var allowed: bool;
      ok, allowed := DoObserve(env.observeAgain, env.clockAgain);
      if !allowed {
        return;
      }
      assert journal[|journal| - 2] == before[|before| - 1];
      LaunchIntentAsks(scope, journal);
      var s := Last(journal);
      var t := s.(phase := Reconciling, launches := s.launches + 1, pending := true);
      AppendedValid(scope, journal, Intent(Launch, s.operation), t);
      ok := Append(Intent(Launch, s.operation), t);
      ok := DoAnswer(Launch, env.launch);
    }

    method DoRecover(inspect: ReceiptReply) returns (ok: bool)
      requires Valid()
      modifies this
      ensures Valid() && journal == Recover(scope, old(journal), inspect)
      ensures ok <==> !RecoverRaises(scope, old(journal), inspect)
    {
      hide ValidTransition;
      ok := true;
      var s := Last(journal);
      if !s.pending {
        return;
      }
      if s.recoveries < scope.maximumRecoveries {
        ok := DoRecoveryAttempt(inspect);
      } else if !journal[|journal| - 1].kind.RecoveryExhausted? {
        RecoverValid(scope, journal, inspect);
        var t := s.(phase := Exhausted, blocker := Or(s.blocker, "recovery-budget-exhausted"));
        AppendedValid(scope, journal, RecoveryExhausted, t);
        ok := Append(RecoveryExhausted, t);
      }
    }

    method DoRecoveryAttempt(inspect: ReceiptReply) returns (ok: bool)
      requires Valid() && Last(journal).pending && Last(journal).recoveries < scope.maximumRecoveries
      modifies this
      ensures Valid() && journal == Answer(RecoveryIntent(old(journal)), Recovery, inspect)
      ensures ok <==> Named(inspect)
    {
      hide ValidTransition, ValidState;
      RecoveryIntentAsks(scope, journal);
      var s := Last(journal);
      var t := s.(phase := Blocked, blocker := Or(s.blocker, "recovery-only"), recoveries := s.recoveries + 1);
      AppendedValid(scope, journal, Intent(Recovery, s.operation), t);
      ok := Append(Intent(Recovery, s.operation), t);
      ok := DoAnswer(Recovery, inspect);
    }

    method DoRecordDelivery(d: Delivery) returns (ok: bool)
      requires Valid()
      modifies this
      ensures Valid() && ok && journal == RecordDelivery(scope, old(journal), d)
    {
      hide ValidTransition, ValidState;
      ok := true;
      RecordDeliveryValid(scope, journal, d);
      var s := Last(journal);
      if s.delivery == Some(d) {
        return;
      }
      if s.delivery.Some? || !s.phase.Waiting? {
        ok := DoStop("delivery-conflict", false);
      } else if !DeliveryBound(scope, d) {
        ok := DoStop("delivery-binding-mismatch", false);
      } else if !d.merged || !d.checksGreen {
        ok := DoStop("delivery-incomplete", false);
      } else {
        AppendedValid(scope, journal, DeliveryRecorded(d), s.(delivery := Some(d)));
        ok := Append(DeliveryRecorded(d), s.(delivery := Some(d)));
      }
    }

    method DoRecordCandidate(c: Candidate) returns (ok: bool)
      requires Valid()
      modifies this
      ensures Valid() && ok && journal == RecordCandidate(old(journal), c)
    {
      hide ValidTransition, ValidState;
      ok := true;
      RecordCandidateValid(scope, journal, c);
      var s := Last(journal);
      if c.id in s.candidates && s.candidates[c.id] == c {
        return;
      }
      if c.id in s.candidates || !s.phase.Waiting? {
        ok := DoStop("candidate-conflict", false);
      } else {
        AppendedValid(scope, journal, CandidateRecorded(c), s.(candidates := s.candidates[c.id := c]));
        ok := Append(CandidateRecorded(c), s.(candidates := s.candidates[c.id := c]));
      }
    }
  }

  lemma IntentKeepsEvidence(scope: Scope, j: Journal)
    requires j != []
    ensures RequiredEvidence(scope, Last(ReconciliationIntent(j))) == RequiredEvidence(scope, Last(j))
  {}

  lemma RejectedPrefix(scope: Scope, j: Journal, i: nat)
    requires i < |j| && !(ValidState(scope, j[i].checkpoint) && ValidTransition(scope, j[..i], j[i]))
    ensures !ValidJournal(scope, j)
  {
    assert j[..i + 1][..i] == j[..i];
    if ValidJournal(scope, j) {
      PrefixValid(scope, j, i + 1);
    }
  }

  /** If appending gives an accepted journal, the validator accepts the append itself. */
  lemma AppendedValid(scope: Scope, j: Journal, kind: Kind, s: State)
    requires ValidJournal(scope, Put(j, kind, s))
    ensures ValidState(scope, s) && ValidTransition(scope, j, Event(kind, s))
  {
    assert Put(j, kind, s)[..|j|] == j;
  }
}
