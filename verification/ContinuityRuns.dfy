/**
 Runs of the continuity protocol: any sequence of calls, any adapter and clock behaviour, and
 a crash after any append of any call.
 */
module ContinuityRuns {
  import opened Wrappers
  import opened CampaignContinuity
  import opened ContinuityTheorems

  // --- Uninterrupted steps terminate ---

  /** An upper bound on the steps left before a terminal phase. */
  ghost function Remaining(scope: Scope, s: State): int {
    if Terminal(s.phase) then 0
    else (if s.phase.Waiting? then 1 else 0) + (scope.maximumReconciliations - s.reconciliations) + 1
  }

  lemma ObserveLast(scope: Scope, j: Journal, reply: ObserveReply, clock: Option<real>, evidence: set<Evidence>)
    requires j != []
    ensures var g := Observe(scope, j, reply, clock, evidence);
            if g.allowed then Last(g.journal) == Last(j) else Terminal(Last(g.journal).phase)
  {}

  /** A terminal phase, or still reconciling with the same reconciliations spent. */
  ghost predicate Settled(s: State, t: State) {
    Terminal(t.phase) || (t.phase.Reconciling? && t.reconciliations == s.reconciliations && t.delivery == s.delivery)
  }

  lemma AnswerLast(j: Journal, a: Attempt, reply: ReceiptReply)
    requires j != [] && Last(j).phase.Reconciling?
    ensures Settled(Last(j), Last(Answer(j, a, reply)))
  {}

  lemma LaunchStepLast(scope: Scope, j: Journal, env: Environment, evidence: set<Evidence>)
    requires j != [] && Last(j).phase.Reconciling?
    ensures Settled(Last(j), Last(LaunchStep(scope, j, env, evidence)))
  {
    ObserveLast(scope, j, env.observeAgain, env.clockAgain, evidence);
    var gate := Observe(scope, j, env.observeAgain, env.clockAgain, evidence);
    AnswerLast(LaunchIntent(gate.journal), Launch, env.launch);
  }

  lemma ReconcileStepLast(scope: Scope, j: Journal, env: Environment, evidence: set<Evidence>)
    requires j != [] && !Terminal(Last(j).phase)
    ensures var t := Last(ReconcileStep(scope, j, env, evidence));
            Terminal(t.phase) || (t.phase.Reconciling? && t.reconciliations == Last(j).reconciliations + 1 && t.delivery == Last(j).delivery)
  {
    var j0 := ReconciliationIntent(j);
    AnswerLast(j0, Reconciliation, env.inspect);
    var j1 := Answer(j0, Reconciliation, env.inspect);
    if !Terminal(Last(j1).phase) {
      LaunchStepLast(scope, j1, env, evidence);
    }
  }

  lemma StepProgresses(scope: Scope, j: Journal, env: Environment)
    requires j != [] && Last(j).delivery.Some? && !Terminal(Last(j).phase)
    ensures Remaining(scope, Last(Step(scope, j, env))) < Remaining(scope, Last(j)) || Terminal(Last(Step(scope, j, env)).phase)
    ensures Terminal(Last(Step(scope, j, env)).phase) || Last(Step(scope, j, env)).delivery.Some?
  {
    var s := Last(j);
    var evidence := RequiredEvidence(scope, s);
    ObserveLast(scope, j, env.observe, env.clock, evidence);
    var gate := Observe(scope, j, env.observe, env.clock, evidence);
    if gate.allowed && !s.phase.Waiting? {
      ReconcileStepLast(scope, gate.journal, env, evidence);
    }
  }

  /** Any number of uninterrupted steps. */
  ghost function Steps(scope: Scope, j: Journal, envs: seq<Environment>): (r: Journal)
    requires j != []
    ensures r != []
  {
    if envs == [] then j
    else
      var before := Steps(scope, j, envs[..|envs| - 1]);
      Step(scope, before, envs[|envs| - 1])
  }

  lemma {:induction false} StepsValid(scope: Scope, j: Journal, envs: seq<Environment>)
    requires ValidJournal(scope, j) && j != []
    ensures ValidJournal(scope, Steps(scope, j, envs))
  {
    if envs != [] {
      StepsValid(scope, j, envs[..|envs| - 1]);
      StepValid(scope, Steps(scope, j, envs[..|envs| - 1]), envs[|envs| - 1]);
    }
  }

  lemma {:induction false} StepsSpendRemaining(scope: Scope, j: Journal, envs: seq<Environment>)
    requires ValidJournal(scope, j) && j != [] && Last(j).delivery.Some?
    ensures var t := Last(Steps(scope, j, envs));
            Terminal(t.phase) || (t.delivery.Some? && Remaining(scope, t) + |envs| <= Remaining(scope, Last(j)))
  {
    if envs != [] {
      var before := envs[..|envs| - 1];
      StepsSpendRemaining(scope, j, before);
      var jb := Steps(scope, j, before);
      if !Terminal(Last(jb).phase) { StepProgresses(scope, jb, envs[|envs| - 1]); }
    }
  }

  /** Once a delivery is recorded, `maximum_reconciliations + 2` steps reach a terminal phase. */
  lemma StepsTerminate(scope: Scope, j: Journal, envs: seq<Environment>)
    requires ValidJournal(scope, j) && j != [] && Last(j).delivery.Some?
    requires |envs| >= scope.maximumReconciliations + 2
    ensures Terminal(Last(Steps(scope, j, envs)).phase)
  {
    StepsValid(scope, j, envs);
    StepsSpendRemaining(scope, j, envs);
  }

  // --- Where launch intents come from ---

  ghost predicate NoNewLaunch(j: Journal, r: Journal) {
    j <= r && forall i | |j| <= i < |r| :: !IsIntent(r[i], Launch)
  }

  lemma NoNewLaunchTransitive(a: Journal, b: Journal, c: Journal)
    requires NoNewLaunch(a, b) && NoNewLaunch(b, c)
    ensures NoNewLaunch(a, c)
  {
    forall i | |a| <= i < |c| ensures !IsIntent(c[i], Launch) {
      if i < |b| { assert c[i] == b[i]; }
    }
  }

  lemma ObserveNoLaunch(scope: Scope, j: Journal, reply: ObserveReply, clock: Option<real>, evidence: set<Evidence>)
    requires j != []
    ensures NoNewLaunch(j, Observe(scope, j, reply, clock, evidence).journal)
  {}

  lemma AnswerNoLaunch(j: Journal, a: Attempt, reply: ReceiptReply)
    requires j != []
    ensures NoNewLaunch(j, Answer(j, a, reply))
  {}

  lemma LaunchStepExtends(scope: Scope, j: Journal, env: Environment, evidence: set<Evidence>)
    requires j != []
    ensures j <= LaunchStep(scope, j, env, evidence)
  {}

  lemma ReconcileStepLaunches(scope: Scope, j: Journal, env: Environment, evidence: set<Evidence>)
    requires j != []
    ensures j <= ReconcileStep(scope, j, env, evidence)
    ensures NoNewLaunch(j, ReconcileStep(scope, j, env, evidence)) || BoundAbsence(Last(j), env.inspect)
  {
    var j0 := ReconciliationIntent(j);
    AnswerNoLaunch(j0, Reconciliation, env.inspect);
    NoNewLaunchTransitive(j, j0, Answer(j0, Reconciliation, env.inspect));
    LaunchStepExtends(scope, Answer(j0, Reconciliation, env.inspect), env, evidence);
  }

  /** The adapter says authoritatively that the selected operation has no effect. */
  predicate BoundAbsence(s: State, r: ReceiptReply) {
    SaysAbsent(r) && ReceiptBound(s, r.receipt)
  }

  /** A step that persists a launch intent was told, in the same step, that its operation has no effect. */
  lemma StepLaunchesOnlyOnAbsence(scope: Scope, j: Journal, env: Environment)
    requires j != []
    ensures j <= Step(scope, j, env)
    ensures NoNewLaunch(j, Step(scope, j, env)) || BoundAbsence(Last(j), env.inspect)
  {
    var s := Last(j);
    if !Terminal(s.phase) && s.delivery.Some? {
      var evidence := RequiredEvidence(scope, s);
      ObserveNoLaunch(scope, j, env.observe, env.clock, evidence);
      var gate := Observe(scope, j, env.observe, env.clock, evidence);
      if gate.allowed && !s.phase.Waiting? {
        ReconcileStepLaunches(scope, gate.journal, env, evidence);
        var r := ReconcileStep(scope, gate.journal, env, evidence);
        if NoNewLaunch(gate.journal, r) { NoNewLaunchTransitive(j, gate.journal, r); }
      }
    }
  }

  /** In an accepted journal a launch intent directly follows a permitting observation and an absence. */
  lemma IntentFollowsAbsence(scope: Scope, j: Journal, i: nat)
    requires ValidJournal(scope, j) && i < |j| && IsIntent(j[i], Launch)
    ensures i >= 2 && PermitsDispatch(scope, j[i - 1]) && AuthoritativeAbsence(j[i - 2].kind)
    ensures j[i].kind.operation == j[i].checkpoint.operation
  {
    hide ValidState, RequiredEvidence;
    PrefixValid(scope, j, i + 1);
    var k := j[..i + 1];
    assert k[..i] == j[..i] && k[i] == j[i];
    LastIntentFollowsAbsence(scope, k);
  }

  lemma LastIntentFollowsAbsence(scope: Scope, j: Journal)
    requires ValidJournal(scope, j) && j != [] && IsIntent(j[|j| - 1], Launch)
    ensures |j| >= 3 && PermitsDispatch(scope, j[|j| - 2]) && AuthoritativeAbsence(j[|j| - 3].kind)
    ensures j[|j| - 1].kind.operation == Last(j).operation
  {
    hide ValidState, RequiredEvidence;
  }

  // --- Runs with crashes ---

  /** `effects` counts launches that really happened, `calls` the calls of the adapter's `launch`. */
  datatype World = World(journal: Journal, effects: nat, calls: nat)

  /**
   A call and how far it got: `kept` appends survive. If the crash falls between the launch
   intent and its answer, `called` says whether the adapter was reached; `effect` says
   whether that call launched something.
   */
  datatype Action =
    | StepCall(env: Environment, kept: nat, called: bool, effect: bool)
    | RecoverCall(inspect: ReceiptReply, kept: nat)
    | DeliveryCall(delivery: Delivery, kept: nat)
    | CandidateCall(candidate: Candidate, kept: nat)

  function Cut(j: Journal, full: Journal, kept: nat): (r: Journal)
    requires j <= full
    ensures j <= r <= full
  {
    if |j| + kept <= |full| then full[..|j| + kept] else full
  }

  /** Was the adapter's `launch` called before the crash? */
  predicate Called(j: Journal, cut: Journal, called: bool) {
    exists i | |j| <= i < |cut| :: cut[i].kind.Intent? && cut[i].kind.attempt.Launch? && (i < |cut| - 1 || called)
  }

  lemma OtherCallsExtend(scope: Scope, j: Journal, a: Action)
    requires j != []
    ensures a.RecoverCall? ==> j <= Recover(scope, j, a.inspect)
    ensures a.DeliveryCall? ==> j <= RecordDelivery(scope, j, a.delivery)
    ensures a.CandidateCall? ==> j <= RecordCandidate(j, a.candidate)
  {}

  ghost function After(scope: Scope, w: World, a: Action): (r: World)
    requires w.journal != []
    ensures w.journal <= r.journal
  {
    StepExtends(scope, w.journal, a);
    OtherCallsExtend(scope, w.journal, a);
    match a
    case StepCall(env, kept, called, effect) =>
      var cut := Cut(w.journal, Step(scope, w.journal, env), kept);
      if Called(w.journal, cut, called)
      then World(cut, w.effects + (if effect then 1 else 0), w.calls + 1)
      else World(cut, w.effects, w.calls)
    case RecoverCall(inspect, kept) => w.(journal := Cut(w.journal, Recover(scope, w.journal, inspect), kept))
    case DeliveryCall(d, kept) => w.(journal := Cut(w.journal, RecordDelivery(scope, w.journal, d), kept))
    case CandidateCall(c, kept) => w.(journal := Cut(w.journal, RecordCandidate(w.journal, c), kept))
  }

  lemma StepExtends(scope: Scope, j: Journal, a: Action)
    requires j != []
    ensures a.StepCall? ==> j <= Step(scope, j, a.env)
  {
    if a.StepCall? { StepLaunchesOnlyOnAbsence(scope, j, a.env); }
  }

  /**
   The adapter's contract: an authoritative ABSENT from `inspect` for the selected operation
   means that there is no effect. Receipts for other operations may say anything.
   */
  predicate Truthful(w: World, a: Action) {
    match a
    case StepCall(env, _, _, _) =>
      w.journal != [] && BoundAbsence(Last(w.journal), env.inspect) ==> w.effects == 0
    case RecoverCall(inspect, _) =>
      w.journal != [] && BoundAbsence(Last(w.journal), inspect) ==> w.effects == 0
    case _ => true
  }

  ghost function Run(scope: Scope, actions: seq<Action>): (w: World)
    ensures w.journal != []
  {
    if actions == [] then World([Event(Initialized(scope), Initial(scope))], 0, 0)
    else After(scope, Run(scope, actions[..|actions| - 1]), actions[|actions| - 1])
  }

  ghost predicate TruthfulRun(scope: Scope, actions: seq<Action>) {
    forall i | 0 <= i < |actions| :: Truthful(Run(scope, actions[..i]), actions[i])
  }

  ghost predicate Safe(scope: Scope, w: World) {
    && w.journal != [] && ValidJournal(scope, w.journal)
    && w.effects <= 1
    && w.calls <= Count(w.journal, Launch)
  }

  lemma {:induction false} CountGrows(j: Journal, r: Journal, a: Attempt)
    requires j <= r
    ensures Count(j, a) <= Count(r, a)
    ensures (exists i | |j| <= i < |r| :: IsIntent(r[i], a)) ==> Count(j, a) < Count(r, a)
    decreases |r|
  {
    if |j| < |r| {
      CountGrows(j, r[..|r| - 1], a);
    } else {
      assert j == r;
    }
  }

  lemma AfterStepSafe(scope: Scope, w: World, a: Action)
    requires Safe(scope, w) && Truthful(w, a) && a.StepCall?
    ensures Safe(scope, After(scope, w, a))
  {
    hide Step, ValidTransition, ValidState, BoundAbsence;
    var full := Step(scope, w.journal, a.env);
    StepLaunchesOnlyOnAbsence(scope, w.journal, a.env);
    StepValid(scope, w.journal, a.env);
    var cut := Cut(w.journal, full, a.kept);
    PrefixValid(scope, full, |cut|);
    assert full[..|cut|] == cut;
    CountGrows(w.journal, cut, Launch);
    if Called(w.journal, cut, a.called) {
      var i :| |w.journal| <= i < |cut| && cut[i].kind.Intent? && cut[i].kind.attempt.Launch?;
      assert IsIntent(cut[i], Launch) && cut[i] == full[i];
      assert !NoNewLaunch(w.journal, full);
    }
  }

  lemma AfterOtherSafe(scope: Scope, w: World, a: Action, full: Journal)
    requires Safe(scope, w) && !a.StepCall? && w.journal <= full && ValidJournal(scope, full)
    requires After(scope, w, a) == w.(journal := Cut(w.journal, full, a.kept))
    ensures Safe(scope, After(scope, w, a))
  {
    var cut := Cut(w.journal, full, a.kept);
    PrefixValid(scope, full, |cut|);
    assert full[..|cut|] == cut;
    CountGrows(w.journal, cut, Launch);
  }

  lemma AfterSafe(scope: Scope, w: World, a: Action)
    requires Safe(scope, w) && Truthful(w, a)
    ensures Safe(scope, After(scope, w, a))
  {
    OtherCallsExtend(scope, w.journal, a);
    match a
    case StepCall(_, _, _, _) => AfterStepSafe(scope, w, a);
    case RecoverCall(inspect, _) =>
      RecoverValid(scope, w.journal, inspect);
      AfterOtherSafe(scope, w, a, Recover(scope, w.journal, inspect));
    case DeliveryCall(d, _) =>
      RecordDeliveryValid(scope, w.journal, d);
      AfterOtherSafe(scope, w, a, RecordDelivery(scope, w.journal, d));
    case CandidateCall(c, _) =>
      RecordCandidateValid(scope, w.journal, c);
      AfterOtherSafe(scope, w, a, RecordCandidate(w.journal, c));
  }

  /**
   Over every run with crashes: the journal is always accepted, at most one launch really
   happens, and calls of `launch` are covered by persisted intents within the budget.
   */
  lemma {:induction false} AtMostOneEffect(scope: Scope, actions: seq<Action>)
    requires ValidScope(scope) && TruthfulRun(scope, actions)
    ensures var w := Run(scope, actions);
            && ValidJournal(scope, w.journal)
            && w.effects <= 1
            && w.calls <= Count(w.journal, Launch) <= scope.maximumLaunches
  {
    RunSafe(scope, actions);
    CountersCountIntents(scope, Run(scope, actions).journal);
  }

  lemma {:induction false} RunSafe(scope: Scope, actions: seq<Action>)
    requires ValidScope(scope) && TruthfulRun(scope, actions)
    ensures Safe(scope, Run(scope, actions))
  {
    if actions == [] {
      InitialSafe(scope);
    } else {
      var before := actions[..|actions| - 1];
      forall i | 0 <= i < |before| ensures Truthful(Run(scope, before[..i]), before[i]) {
        assert before[..i] == actions[..i];
      }
      RunSafe(scope, before);
      AfterSafe(scope, Run(scope, before), actions[|actions| - 1]);
    }
  }

  lemma InitialSafe(scope: Scope)
    requires ValidScope(scope)
    ensures Safe(scope, World([Event(Initialized(scope), Initial(scope))], 0, 0))
  {
    var j: Journal := [];
    PutValid(scope, j, Initialized(scope), Initial(scope));
  }
}
