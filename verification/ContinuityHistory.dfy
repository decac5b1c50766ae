/** An accepted continuity journal tells one story: its checkpoints are its own history, and every event has its cause before it. */
module ContinuityHistory {
  import opened Wrappers
  import opened Identifiers
  import opened CampaignContinuity
  import opened ContinuityTheorems
  import opened ContinuityMeaning

  ghost predicate Has(j: Journal, k: Kind) {
    exists n | 0 <= n < |j| :: j[n].kind == k
  }

  ghost predicate Chose(j: Journal, id: Id) {
    exists n | 0 <= n < |j| :: j[n].kind.CandidateSelected? && j[n].kind.selection.selected == id
  }

  lemma HasSnoc(j: Journal, e: Event, k: Kind)
    ensures Has(j + [e], k) <==> Has(j, k) || e.kind == k
  {
    var j' := j + [e];
    assert j'[|j|] == e;
    if n :| 0 <= n < |j| && j[n].kind == k { assert j'[n].kind == k; }
  }

  lemma ChoseSnoc(j: Journal, e: Event, id: Id)
    ensures Chose(j + [e], id) <==> Chose(j, id) || (e.kind.CandidateSelected? && e.kind.selection.selected == id)
  {
    var j' := j + [e];
    assert j'[|j|] == e;
    if n :| 0 <= n < |j| && j[n].kind.CandidateSelected? && j[n].kind.selection.selected == id {
      assert j'[n] == j[n];
    }
  }

  // --- Checkpoints are history ---

  ghost predicate Knows(s: State, c: Candidate) {
    c.id in s.candidates && s.candidates[c.id] == c
  }

  lemma TransitionRecords(scope: Scope, j: Journal, e: Event, d: Delivery, c: Candidate)
    requires j != [] && ValidTransition(scope, j, e)
    ensures e.checkpoint.delivery == Some(d) <==> Last(j).delivery == Some(d) || e.kind == DeliveryRecorded(d)
    ensures Knows(e.checkpoint, c) <==> Knows(Last(j), c) || e.kind == CandidateRecorded(c)
  {
    hide PermitsDispatch, EligibleIds, SelectionOf, ReceiptBound, Text, AuthoritativeAbsence, Terminal, Or;
    assert !e.kind.CandidateRecorded? ==> e.checkpoint.candidates == Last(j).candidates;
  }

  lemma TransitionSelects(scope: Scope, j: Journal, e: Event, id: Id)
    requires j != [] && ValidTransition(scope, j, e) && ValidState(scope, Last(j))
    ensures e.checkpoint.selected == Some(id) <==>
              Last(j).selected == Some(id) || (e.kind.CandidateSelected? && e.kind.selection.selected == id)
  {
    SelectedIsNotWaiting(scope, Last(j));
    hide PermitsDispatch, EligibleIds, SelectionOf, ReceiptBound, Text, AuthoritativeAbsence, Terminal, Or, ValidState;
  }

  lemma NothingYet(scope: Scope, e: Event, d: Delivery, c: Candidate, id: Id)
    requires ValidTransition(scope, [], e)
    ensures !Has([], DeliveryRecorded(d)) && !Has([], CandidateRecorded(c)) && !Chose([], id)
    ensures e.kind.Initialized? && e.checkpoint.delivery.None? && !Knows(e.checkpoint, c) && e.checkpoint.selected.None?
  {}

  lemma {:induction false} HistoryOf(scope: Scope, j: Journal, d: Delivery, c: Candidate, id: Id)
    requires ValidJournal(scope, j) && j != []
    ensures Last(j).delivery == Some(d) <==> Has(j, DeliveryRecorded(d))
    ensures Knows(Last(j), c) <==> Has(j, CandidateRecorded(c))
    ensures Last(j).selected == Some(id) <==> Chose(j, id)
  {
    hide ValidTransition, ValidState, Has, Chose, Knows;
    var before, e := j[..|j| - 1], j[|j| - 1];
    assert j == before + [e];
    HasSnoc(before, e, DeliveryRecorded(d));
    HasSnoc(before, e, CandidateRecorded(c));
    ChoseSnoc(before, e, id);
    if before == [] {
      NothingYet(scope, e, d, c, id);
    } else {
      HistoryOf(scope, before, d, c, id);
      TransitionRecords(scope, before, e, d, c);
      TransitionSelects(scope, before, e, id);
    }
  }

  /** Delivery, candidates and selection in force are exactly the ones the journal recorded. */
  lemma CheckpointIsHistory(scope: Scope, j: Journal)
    requires ValidJournal(scope, j) && j != []
    ensures forall d :: Last(j).delivery == Some(d) <==> Has(j, DeliveryRecorded(d))
    ensures forall c :: Knows(Last(j), c) <==> Has(j, CandidateRecorded(c))
    ensures forall id :: Last(j).selected == Some(id) <==> Chose(j, id)
  {
    hide *;
    var d0: Delivery, c0: Candidate :| true;
    forall d ensures Last(j).delivery == Some(d) <==> Has(j, DeliveryRecorded(d)) { HistoryOf(scope, j, d, c0, ""); }
    forall c ensures Knows(Last(j), c) <==> Has(j, CandidateRecorded(c)) { HistoryOf(scope, j, d0, c, ""); }
    forall id ensures Last(j).selected == Some(id) <==> Chose(j, id) { HistoryOf(scope, j, d0, c0, id); }
  }

  // --- Every event has its cause before it ---

  /** Deliveries, candidates and the choice are recorded once and before any of it is acted on. */
  ghost predicate InOrder(before: Journal, k: Kind) {
    && (k.Initialized? <==> before == [])
    && (k.AuthorityObserved? ==> exists d :: Has(before, DeliveryRecorded(d)))
    && (k.DeliveryRecorded? ==> forall d :: !Has(before, DeliveryRecorded(d)))
    && (k.CandidateRecorded? ==> forall c | Has(before, CandidateRecorded(c)) :: c.id != k.candidate.id)
    && (k.DeliveryRecorded? || k.CandidateRecorded? || k.CandidateSelected? ==> forall id :: !Chose(before, id))
  }

  lemma TransitionOrder(scope: Scope, j: Journal, e: Event)
    requires j != [] && ValidTransition(scope, j, e) && ValidState(scope, Last(j))
    ensures !e.kind.Initialized?
    ensures e.kind.AuthorityObserved? ==> Last(j).delivery.Some?
    ensures e.kind.DeliveryRecorded? ==> Last(j).delivery.None?
    ensures e.kind.CandidateRecorded? ==> e.kind.candidate.id !in Last(j).candidates
    ensures e.kind.DeliveryRecorded? || e.kind.CandidateRecorded? || e.kind.CandidateSelected? ==> Last(j).selected.None?
  {
    SelectedIsNotWaiting(scope, Last(j));
    hide PermitsDispatch, EligibleIds, SelectionOf, ReceiptBound, Text, AuthoritativeAbsence, Terminal, Or, ValidState;
  }

  lemma EventsInOrder(scope: Scope, j: Journal, i: nat)
    requires ValidJournal(scope, j) && i < |j|
    ensures InOrder(j[..i], j[i].kind)
  {
    hide ValidJournal, ValidState, ValidTransition, Has, Chose;
    var before, e := j[..i], j[i];
    AtPosition(scope, j, i);
    PrefixValid(scope, j, i);
    if before == [] {
      InitializedOnly(scope, e);
    } else {
      AtPosition(scope, j, i - 1);
      TransitionOrder(scope, before, e);
      CheckpointIsHistory(scope, before);
      if Last(before).delivery.Some? { assert Has(before, DeliveryRecorded(Last(before).delivery.value)); }
      forall c | Has(before, CandidateRecorded(c)) ensures c.id in Last(before).candidates { assert Knows(Last(before), c); }
    }
  }

  lemma InitializedOnly(scope: Scope, e: Event)
    requires ValidTransition(scope, [], e)
    ensures e.kind == Initialized(scope)
  {}

  /** What a stop, a recovery and an exhaustion rest on. */
  ghost predicate Caused(scope: Scope, before: Journal, k: Kind, next: State)
    requires before != []
  {
    var s := Last(before);
    && (k.Intent? && k.attempt.Recovery? ==> Unsettled(before))
    && (k.RecoveryExhausted? ==> Unsettled(before) && Count(before, Recovery) == scope.maximumRecoveries)
    && (k.Stopped? ==> Text(k.code))
    && (k.Unanswered? ==> Text(k.error.name) && (k.error.code.Some? ==> Text(k.error.code.value)))
    && (k.Stopped? && !Terminal(s.phase) ==> next.blocker == Some(k.code) && (next.phase.Blocked? || next.phase.Exhausted?))
    && (k.Stopped? && !Terminal(s.phase) && next.phase.Exhausted? ==>
          || (k.code == "launch-budget-exhausted" && Count(before, Launch) == scope.maximumLaunches)
          || (k.code == "reconciliation-budget-exhausted" && Count(before, Reconciliation) == scope.maximumReconciliations))
    && (Terminal(s.phase) ==> k.Stopped? || k.RecoveryExhausted? || ((k.Intent? || k.Received? || k.Unanswered?) && k.attempt.Recovery?))
  }

  lemma EventsCaused(scope: Scope, j: Journal, i: nat)
    requires ValidJournal(scope, j) && 0 < i < |j|
    ensures Caused(scope, j[..i], j[i].kind, j[i].checkpoint)
  {
    hide ValidJournal, ValidState, Unsettled, Count, Text, PermitsDispatch, EligibleIds, SelectionOf, ReceiptBound, Or;
    AtPosition(scope, j, i);
    PrefixValid(scope, j, i);
    PendingMeansUnsettled(scope, j[..i]);
    CountersCountIntents(scope, j[..i]);
  }

  /** A reconciliation names no operation; a launch and a recovery name the one delivery and candidate that were chosen. */
  ghost predicate Names(scope: Scope, before: Journal, k: Kind)
    requires k.Intent?
  {
    if k.attempt.Reconciliation? then k.operation.None?
    else exists d, c :: k.operation == Some(Operation(scope, d, c))
           && Has(before, DeliveryRecorded(d)) && Has(before, CandidateRecorded(c)) && Chose(before, c.id)
  }

  lemma TransitionNames(scope: Scope, j: Journal, e: Event)
    requires j != [] && ValidTransition(scope, j, e) && ValidState(scope, Last(j)) && e.kind.Intent?
    ensures e.kind.attempt.Reconciliation? ==> e.kind.operation.None?
    ensures !e.kind.attempt.Reconciliation? ==> e.kind.operation == Last(j).operation && Last(j).selected.Some?
  {
    hide PermitsDispatch, EligibleIds, SelectionOf, ReceiptBound, Text, AuthoritativeAbsence, Or;
  }

  lemma IntentsName(scope: Scope, j: Journal, i: nat)
    requires ValidJournal(scope, j) && 0 < i < |j| && j[i].kind.Intent?
    ensures Names(scope, j[..i], j[i].kind)
  {
    hide ValidJournal, ValidTransition, Has, Chose, Text, Knows;
    AtPosition(scope, j, i);
    AtPosition(scope, j, i - 1);
    PrefixValid(scope, j, i);
    TransitionNames(scope, j[..i], j[i]);
    var s := j[i - 1].checkpoint;
    assert s == Last(j[..i]);
    if !j[i].kind.attempt.Reconciliation? {
      SelectedIsKnown(scope, s);
      CheckpointIsHistory(scope, j[..i]);
      var d, c := s.delivery.value, s.candidates[s.selected.value];
      assert Has(j[..i], DeliveryRecorded(d)) && Has(j[..i], CandidateRecorded(c)) && Chose(j[..i], c.id);
    }
  }

  lemma SelectedIsKnown(scope: Scope, s: State)
    requires ValidState(scope, s) && s.selected.Some?
    ensures s.delivery.Some? && s.selected.value in s.candidates
    ensures var c := s.candidates[s.selected.value];
            c.id == s.selected.value && Knows(s, c) && s.operation == Some(Operation(scope, s.delivery.value, c))
  {}
}
