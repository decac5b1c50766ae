/**
 The post-delivery launch protocol of a campaign: an append-only journal whose every event
 carries a full checkpoint, a writer that appends intents before it asks its adapter for
 effects, and an independent validator that re-derives every checkpoint on every read.
 Digests are injective, so an operation id is the triple it is computed from.
 */
module CampaignContinuity {
  import opened Wrappers
  import opened Identifiers

  datatype Evidence = Evidence(uri: string, digest: string)

  datatype Subject = Subject(repository: string, worktree: string, commit: string, tree: string)

  datatype Scope = Scope(
    campaign: Id, delivery: Id, subject: Subject, owner: Id, digest: string, authority: string,
    evidence: seq<Evidence>, allowed: set<Id>, expiresAt: int,
    maximumLaunches: int, maximumReconciliations: int, observationMaxAge: int, maximumRecoveries: int)

  datatype Delivery = Delivery(
    id: Id, subject: Subject, scopeDigest: string, merged: bool, checksGreen: bool, evidence: seq<Evidence>)

  datatype Disposition = Adopt | Adapt | Defer | Reject | Quarantine

  datatype Candidate = Candidate(
    id: Id, version: string, subject: Subject, scopeDigest: string, authority: string, priority: int,
    reversible: bool, disposition: Disposition, evidence: seq<Evidence>, dissent: seq<string>)

  datatype Observation = Observation(
    subject: Subject, scopeDigest: string, authority: string, owner: Id, observer: Id, observedAt: int,
    launchAllowed: bool, verified: set<Evidence>, receipt: Evidence)

  datatype Operation = Operation(scope: Scope, delivery: Delivery, candidate: Candidate)

  datatype LaunchStatus = Absent | Started | Unknown | Denied

  datatype Receipt = Receipt(operation: Operation, candidateVersion: string, status: LaunchStatus, authoritative: bool, evidence: Evidence)

  datatype Phase = Waiting | Selected | Reconciling | Launched | Blocked | Exhausted

  /** The checkpoint. `pending` is the source's `outcome_pending`. */
  datatype State = State(
    scope: Scope, phase: Phase, delivery: Option<Delivery>, candidates: map<Id, Candidate>,
    selected: Option<Id>, operation: Option<Operation>,
    launches: int, reconciliations: int, recoveries: int, pending: bool, blocker: Option<string>)

  /** A raised adapter error: its class name, and a code when it is a typed refusal. */
  datatype AdapterError = AdapterError(name: string, code: Option<string>)

  /** What the selection event records besides the choice. */
  datatype Selection = Selection(selected: Id, eligible: set<Id>, notSelected: set<Id>)

  datatype Attempt = Reconciliation | Launch | Recovery

  datatype Kind =
    | Initialized(scope: Scope)
    | DeliveryRecorded(delivery: Delivery)
    | CandidateRecorded(candidate: Candidate)
    | AuthorityObserved(observation: Observation)
    | CandidateSelected(selection: Selection)
    | Intent(attempt: Attempt, operation: Option<Operation>)
    | Received(attempt: Attempt, receipt: Receipt)
    | Unanswered(attempt: Attempt, error: AdapterError)
    | RecoveryExhausted
    | Stopped(code: string)

  datatype Event = Event(kind: Kind, checkpoint: State)

  type Journal = seq<Event>

  predicate Terminal(p: Phase) {
    p.Launched? || p.Blocked? || p.Exhausted?
  }

  /** What `strip` removes, within ASCII. */
  predicate Space(c: char) {
    c == ' ' || '\t' <= c <= '\r' || '\U{1c}' <= c <= '\U{1f}'
  }

  /** `_text`: an identifier that is nonempty and has no surrounding space. */
  predicate Text(s: string) {
    s != "" && !Space(s[0]) && !Space(s[|s| - 1])
  }

  predicate Eligible(scope: Scope, c: Candidate) {
    && c.id in scope.allowed && c.subject == scope.subject && c.scopeDigest == scope.digest
    && c.authority == scope.authority && c.reversible && (c.disposition.Adopt? || c.disposition.Adapt?)
  }

  predicate DeliveryBound(scope: Scope, d: Delivery) {
    d.id == scope.delivery && d.subject == scope.subject && d.scopeDigest == scope.digest
  }

  function Initial(scope: Scope): State {
    State(scope, Waiting, None, map[], None, None, 0, 0, 0, false, None)
  }

  function Or(blocker: Option<string>, code: string): Option<string> {
    if blocker.Some? then blocker else Some(code)
  }

  // --- The validator ---

  predicate ValidScope(scope: Scope) {
    && scope.expiresAt >= 1 && scope.maximumLaunches >= 1 && scope.maximumReconciliations >= 1
    && scope.observationMaxAge >= 1 && scope.maximumRecoveries >= 1
  }

  /** `_validate_state` */
  predicate ValidState(scope: Scope, s: State) {
    && s.scope == scope
    && 0 <= s.launches <= scope.maximumLaunches
    && 0 <= s.reconciliations <= scope.maximumReconciliations
    && 0 <= s.recoveries <= scope.maximumRecoveries
    && (s.blocker.Some? ==> Text(s.blocker.value))
    && (s.phase.Blocked? || s.phase.Exhausted? ==> s.blocker.Some?)
    && (s.delivery.Some? ==> DeliveryBound(scope, s.delivery.value) && s.delivery.value.merged && s.delivery.value.checksGreen)
    && (forall k | k in s.candidates :: s.candidates[k].id == k)
    && (if s.selected.None? then
          && s.operation.None? && s.launches == 0 && s.reconciliations == 0 && s.recoveries == 0 && !s.pending
          && !s.phase.Selected? && !s.phase.Reconciling? && !s.phase.Launched?
        else
          && s.selected.value in s.candidates && s.delivery.Some? && !s.phase.Waiting?
          && Eligible(scope, s.candidates[s.selected.value])
          && s.operation == Some(Operation(scope, s.delivery.value, s.candidates[s.selected.value])))
    && (s.pending ==> s.launches != 0 && !s.phase.Launched?)
    && (s.phase.Selected? ==> s.launches == 0 && s.reconciliations == 0 && s.recoveries == 0)
    && (s.phase.Reconciling? || s.phase.Launched? ==> s.reconciliations != 0)
    && (s.launches != 0 ==> s.reconciliations != 0)
    && (s.recoveries != 0 ==> Terminal(s.phase))
  }

  function RequiredEvidence(scope: Scope, s: State): set<Evidence> {
    Elements(scope.evidence)
    + (if s.delivery.Some? then Elements(s.delivery.value.evidence) else {})
    + (if s.selected.Some? && s.selected.value in s.candidates then Elements(s.candidates[s.selected.value].evidence) else {})
  }

  /** `_validate_dispatch_observation` */
  predicate PermitsDispatch(scope: Scope, e: Event) {
    && e.kind.AuthorityObserved?
    && e.checkpoint.delivery.Some?
    && var o := e.kind.observation;
       && o.subject == scope.subject && o.scopeDigest == scope.digest && o.authority == scope.authority
       && o.owner == scope.owner && o.observer != scope.owner && o.launchAllowed
       && o.observedAt < scope.expiresAt
       && o.verified == RequiredEvidence(scope, e.checkpoint)
  }

  function EligibleIds(scope: Scope, s: State): set<Id> {
    set k | k in s.candidates && Eligible(scope, s.candidates[k])
  }

  function PriorityKey(candidates: map<Id, Candidate>): Id -> int {
    k => if k in candidates then -candidates[k].priority else 0
  }

  /** Highest priority first, then least identifier. */
  function SelectionOf(scope: Scope, s: State): (r: Selection)
    requires EligibleIds(scope, s) != {}
    ensures r.selected in s.candidates && Eligible(scope, s.candidates[r.selected])
  {
    var ids := EligibleIds(scope, s);
    var best := First(PriorityKey(s.candidates), ids);
    Selection(best, ids, s.candidates.Keys - {best})
  }

  function Choose(scope: Scope, s: State, r: Selection): State
    requires r.selected in s.candidates && s.delivery.Some?
  {
    s.(phase := Selected, selected := Some(r.selected),
       operation := Some(Operation(scope, s.delivery.value, s.candidates[r.selected])))
  }

  /** `_receipt_state` */
  function ReceiptState(s: State, r: Receipt): State {
    if r.status.Denied? then s.(phase := Blocked, blocker := Or(s.blocker, "launch-denied"))
    else if r.status.Started? && r.authoritative then s.(phase := Launched, pending := false)
    else if r.status.Absent? && r.authoritative then s.(pending := false)
    else s
  }

  predicate ReceiptBound(s: State, r: Receipt) {
    && s.selected.Some? && s.selected.value in s.candidates
    && s.operation == Some(r.operation) && r.candidateVersion == s.candidates[s.selected.value].version
  }

  predicate AuthoritativeAbsence(k: Kind) {
    k.Received? && k.attempt.Reconciliation? && k.receipt.status.Absent? && k.receipt.authoritative
  }

  /** `_validate_transition`: does the event explain its whole checkpoint, given the events before it? */
  predicate ValidTransition(scope: Scope, events: Journal, e: Event) {
    if events == [] then
      e.kind == Initialized(scope) && e.checkpoint == Initial(scope)
    else
      var previous := events[|events| - 1];
      var s := previous.checkpoint;
      var t := e.checkpoint;
      && (Terminal(s.phase) ==>
            || e.kind.Stopped? || e.kind.RecoveryExhausted?
            || ((e.kind.Intent? || e.kind.Received? || e.kind.Unanswered?) && e.kind.attempt.Recovery?))
      && match e.kind
         case Initialized(_) => false
         case DeliveryRecorded(d) =>
           s.phase.Waiting? && s.delivery.None? && t == s.(delivery := Some(d))
         case CandidateRecorded(c) =>
           s.phase.Waiting? && c.id !in s.candidates && t == s.(candidates := s.candidates[c.id := c])
         case AuthorityObserved(_) =>
           s.delivery.Some? && t == s
         case CandidateSelected(selection) =>
           && s.phase.Waiting? && PermitsDispatch(scope, previous)
           && EligibleIds(scope, s) != {} && selection == SelectionOf(scope, s) && t == Choose(scope, s, selection)
         case Intent(Reconciliation, op) =>
           && (s.phase.Selected? || s.phase.Reconciling?) && op == None && PermitsDispatch(scope, previous)
           && t == s.(phase := Reconciling, reconciliations := s.reconciliations + 1)
         case Intent(Launch, op) =>
           && s.phase.Reconciling? && op == s.operation && PermitsDispatch(scope, previous)
           && |events| >= 2 && AuthoritativeAbsence(events[|events| - 2].kind)
           && t == s.(launches := s.launches + 1, pending := true)
         case Intent(Recovery, op) =>
           && s.pending && op == s.operation
           && t == s.(phase := Blocked, blocker := Or(s.blocker, "recovery-only"), recoveries := s.recoveries + 1)
         case Received(a, r) =>
           previous.kind.Intent? && previous.kind.attempt == a && ReceiptBound(s, r) && t == ReceiptState(s, r)
         case Unanswered(a, error) =>
           && previous.kind.Intent? && previous.kind.attempt == a
           && Text(error.name) && (error.code.Some? ==> Text(error.code.value))
           && t == (if error.code.Some? && !Terminal(s.phase) then s.(phase := Blocked, blocker := error.code) else s)
         case RecoveryExhausted =>
           && s.pending && s.recoveries == scope.maximumRecoveries
           && t == s.(phase := Exhausted, blocker := Or(s.blocker, "recovery-budget-exhausted"))
         case Stopped(code) =>
           && Text(code)
           && if Terminal(s.phase) then t == s else
                && (t.phase.Exhausted? ==>
                      || (code == "launch-budget-exhausted" && s.launches == scope.maximumLaunches)
                      || (code == "reconciliation-budget-exhausted" && s.reconciliations == scope.maximumReconciliations))
                && t == s.(phase := if t.phase.Exhausted? then Exhausted else Blocked, blocker := Some(code))
  }

  /** What `_events` accepts. */
  predicate ValidJournal(scope: Scope, j: Journal) {
    j != [] ==>
      && ValidJournal(scope, j[..|j| - 1])
      && ValidState(scope, j[|j| - 1].checkpoint)
      && ValidTransition(scope, j[..|j| - 1], j[|j| - 1])
  }

  // --- The writer ---

  function Last(j: Journal): State
    requires j != []
  {
    j[|j| - 1].checkpoint
  }

  function Put(j: Journal, kind: Kind, s: State): (r: Journal)
    ensures r != [] && Last(r) == s
  {
    j + [Event(kind, s)]
  }

  /** `_stop` */
  function Stop(j: Journal, code: string, exhausted: bool): Journal
    requires j != []
  {
    var s := Last(j);
    Put(j, Stopped(code), if Terminal(s.phase) then s else s.(phase := if exhausted then Exhausted else Blocked, blocker := Some(code)))
  }

  datatype ObserveReply = Observed(observation: Observation) | ObserveMalformed | ObserveRaised(error: AdapterError)

  datatype ReceiptReply = Replied(receipt: Receipt) | ReplyMalformed | ReplyRaised(error: AdapterError)

  /** `_adapter_error` keeps a code only when it is a proper text; it takes the class name as it is. */
  function Recorded(e: AdapterError): AdapterError {
    if e.code.Some? && !Text(e.code.value) then AdapterError(e.name, None) else e
  }

  /** The first reason not to dispatch on an observation, if any. A clock that fails reads `None`. */
  function Refusal(scope: Scope, o: Observation, clock: Option<real>, evidence: set<Evidence>): Option<string> {
    if clock.None? || clock.value < 0.0 then Some("clock-unavailable")
    else
      var now := clock.value;
      if now >= scope.expiresAt as real then Some("authority-expired")
      else if o.subject != scope.subject then Some("subject-changed")
      else if o.scopeDigest != scope.digest || o.owner != scope.owner then Some("scope-changed")
      else if o.authority != scope.authority then Some("authority-changed")
      else if !o.launchAllowed then Some("authority-denied")
      else if o.observedAt as real > now || now - o.observedAt as real > scope.observationMaxAge as real then Some("observation-stale")
      else if o.observer == scope.owner then Some("observer-not-independent")
      else if o.verified != evidence then Some("evidence-mismatch")
      else None
  }

  datatype Gate = Gate(journal: Journal, allowed: bool)

  /** `_observe` */
  function Observe(scope: Scope, j: Journal, reply: ObserveReply, clock: Option<real>, evidence: set<Evidence>): (g: Gate)
    requires j != []
    ensures g.journal != [] && Last(g.journal).delivery == Last(j).delivery
  {
    match reply
    case ObserveRaised(error) =>
      var code := Recorded(error).code;
      Gate(Stop(j, if code.Some? then code.value else "observation-unavailable", false), false)
    case ObserveMalformed => Gate(Stop(j, "observation-malformed", false), false)
    case Observed(o) =>
      var j1 := Put(j, AuthorityObserved(o), Last(j));
      var refusal := Refusal(scope, o, clock, evidence);
      if refusal.Some? then Gate(Stop(j1, refusal.value, false), false) else Gate(j1, true)
  }

  function UnansweredState(s: State, error: AdapterError): State {
    if error.code.Some? && !Terminal(s.phase) then s.(phase := Blocked, blocker := error.code) else s
  }

  /**
   `_unknown`, and the `recovery-unknown` append of `recover`, where the phase is terminal. An
   exception whose class name is not a proper text is refused by the validator: nothing is
   appended, and the call raises.
   */
  function Unanswer(j: Journal, a: Attempt, error: AdapterError): Journal
    requires j != []
  {
    if !Text(error.name) then j
    else Put(j, Unanswered(a, Recorded(error)), UnansweredState(Last(j), Recorded(error)))
  }

  /** The adapter's answer to an intent: an exception, a malformed or foreign receipt, or a bound one. */
  function Answer(j: Journal, a: Attempt, reply: ReceiptReply): (r: Journal)
    requires j != []
    ensures r != []
  {
    match reply
    case ReplyRaised(error) => Unanswer(j, a, error)
    case ReplyMalformed => Stop(j, "launch-receipt-mismatch", false)
    case Replied(r) =>
      if ReceiptBound(Last(j), r) then Put(j, Received(a, r), ReceiptState(Last(j), r))
      else Stop(j, "launch-receipt-mismatch", false)
  }

  /** One call's worth of adapter and clock behaviour. */
  datatype Environment = Environment(
    observe: ObserveReply, clock: Option<real>, inspect: ReceiptReply,
    observeAgain: ObserveReply, clockAgain: Option<real>, launch: ReceiptReply)

  /** The reply can be recorded: it is no exception, or one with a proper class name. */
  predicate Named(r: ReceiptReply) {
    r.ReplyRaised? ==> Text(r.error.name)
  }

  function SelectStep(scope: Scope, j: Journal): Journal
    requires j != [] && Last(j).delivery.Some?
  {
    var s := Last(j);
    if EligibleIds(scope, s) == {} then Stop(j, "no-eligible-candidate", false)
    else
      var selection := SelectionOf(scope, s);
      Put(j, CandidateSelected(selection), Choose(scope, s, selection))
  }

  /** The launch intent and the launch call it covers. */
  function LaunchIntent(j: Journal): Journal
    requires j != []
  {
    var s := Last(j);
    Put(j, Intent(Launch, s.operation), s.(phase := Reconciling, launches := s.launches + 1, pending := true))
  }

  function LaunchStep(scope: Scope, j: Journal, env: Environment, evidence: set<Evidence>): (r: Journal)
    requires j != []
    ensures r != []
  {
    if Last(j).launches >= scope.maximumLaunches then Stop(j, "launch-budget-exhausted", true)
    else
      var gate := Observe(scope, j, env.observeAgain, env.clockAgain, evidence);
      if !gate.allowed then gate.journal
      else Answer(LaunchIntent(gate.journal), Launch, env.launch)
  }

  function ReconciliationIntent(j: Journal): Journal
    requires j != []
  {
    var s := Last(j);
    Put(j, Intent(Reconciliation, None), s.(phase := Reconciling, reconciliations := s.reconciliations + 1))
  }

  predicate SaysAbsent(r: ReceiptReply) {
    r.Replied? && r.receipt.authoritative && r.receipt.status.Absent?
  }

  function ReconcileStep(scope: Scope, j: Journal, env: Environment, evidence: set<Evidence>): (r: Journal)
    requires j != []
    ensures r != []
  {
    if Last(j).reconciliations >= scope.maximumReconciliations then Stop(j, "reconciliation-budget-exhausted", true)
    else
      var j1 := Answer(ReconciliationIntent(j), Reconciliation, env.inspect);
      if Terminal(Last(j1).phase) || !SaysAbsent(env.inspect) then j1
      else LaunchStep(scope, j1, env, evidence)
  }

  /** The journal after an uninterrupted `step`. */
  function Step(scope: Scope, j: Journal, env: Environment): (r: Journal)
    requires j != []
    ensures r != []
  {
    var s := Last(j);
    if Terminal(s.phase) || s.delivery.None? then j
    else
      var evidence := RequiredEvidence(scope, s);
      var gate := Observe(scope, j, env.observe, env.clock, evidence);
      if !gate.allowed then gate.journal
      else if s.phase.Waiting? then SelectStep(scope, gate.journal)
      else ReconcileStep(scope, gate.journal, env, evidence)
  }

  // --- When a call raises because an exception cannot be recorded ---

  predicate LaunchRaises(scope: Scope, j: Journal, env: Environment, evidence: set<Evidence>)
    requires j != []
  {
    && Last(j).launches < scope.maximumLaunches
    && Observe(scope, j, env.observeAgain, env.clockAgain, evidence).allowed && !Named(env.launch)
  }

  predicate ReconcileRaises(scope: Scope, j: Journal, env: Environment, evidence: set<Evidence>)
    requires j != []
  {
    && Last(j).reconciliations < scope.maximumReconciliations
    && (!Named(env.inspect) ||
        var j1 := Answer(ReconciliationIntent(j), Reconciliation, env.inspect);
        !Terminal(Last(j1).phase) && SaysAbsent(env.inspect) && LaunchRaises(scope, j1, env, evidence))
  }

  /** The adapter's `inspect` or `launch` is reached and raises an exception without a proper class name. */
  predicate StepRaises(scope: Scope, j: Journal, env: Environment)
    requires j != []
  {
    var s := Last(j);
    && !Terminal(s.phase) && s.delivery.Some? && !s.phase.Waiting?
    && var evidence := RequiredEvidence(scope, s);
       var gate := Observe(scope, j, env.observe, env.clock, evidence);
       gate.allowed && ReconcileRaises(scope, gate.journal, env, evidence)
  }

  predicate RecoverRaises(scope: Scope, j: Journal, inspect: ReceiptReply)
    requires j != []
  {
    Last(j).pending && Last(j).recoveries < scope.maximumRecoveries && !Named(inspect)
  }

  function RecoveryIntent(j: Journal): Journal
    requires j != []
  {
    var s := Last(j);
    Put(j, Intent(Recovery, s.operation),
        s.(phase := Blocked, blocker := Or(s.blocker, "recovery-only"), recoveries := s.recoveries + 1))
  }

  /** The journal after an uninterrupted `recover`. */
  function Recover(scope: Scope, j: Journal, inspect: ReceiptReply): Journal
    requires j != []
  {
    var s := Last(j);
    if !s.pending then j
    else if s.recoveries >= scope.maximumRecoveries then
      if j[|j| - 1].kind.RecoveryExhausted? then j
      else Put(j, RecoveryExhausted, s.(phase := Exhausted, blocker := Or(s.blocker, "recovery-budget-exhausted")))
    else Answer(RecoveryIntent(j), Recovery, inspect)
  }

  /** The journal after `record_delivery`. */
  function RecordDelivery(scope: Scope, j: Journal, d: Delivery): Journal
    requires j != []
  {
    var s := Last(j);
    if s.delivery == Some(d) then j
    else if s.delivery.Some? || !s.phase.Waiting? then Stop(j, "delivery-conflict", false)
    else if !DeliveryBound(scope, d) then Stop(j, "delivery-binding-mismatch", false)
    else if !d.merged || !d.checksGreen then Stop(j, "delivery-incomplete", false)
    else Put(j, DeliveryRecorded(d), s.(delivery := Some(d)))
  }

  /** The journal after `record_candidate`. */
  function RecordCandidate(j: Journal, c: Candidate): Journal
    requires j != []
  {
    var s := Last(j);
    if c.id in s.candidates && s.candidates[c.id] == c then j
    else if c.id in s.candidates || !s.phase.Waiting? then Stop(j, "candidate-conflict", false)
    else Put(j, CandidateRecorded(c), s.(candidates := s.candidates[c.id := c]))
  }
}
