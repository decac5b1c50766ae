# hive_mind_os: verified core

This project models, in Dafny 4.11, the parts of hive_mind_os where several operations must agree
with each other: admission of dependency graphs, the cohort scheduler and its benchmark, the cohort
journal with replay and repair, the campaign continuity protocol, the tournament bracket with its
match decision, and the shared autonomy budget.

`dafny verify dfyconfig.toml` checks everything.

## How it is laid out

| files | what they hold |
|---|---|
| `Wrappers`, `Identifiers`, `Sums`, `Dependencies` | options, the identifier order of `sorted` and `min`, totals, dependency graphs, cycles and ranks |
| `CampaignContracts`, `OutcomeGraph` | the two dependency checks: peeling and depth-first search |
| `CohortBenchmark`, `GrahamExactness`, `LaunchOrder` | the discrete-event scheduler and its time bounds; exactly when Graham's bound holds; which packages a pass launches |
| `CohortJournal`, `JournalMeaning`, `CohortRuntime`, `CohortRuns`, `RuntimeLaunchOrder`, `CohortStall`, `CohortStallSchedules`, `CohortMaskedCascade`, `CohortExecution` | the journal rules and replay, and what they mean; the steps of a turn; runs with any completion order and crashes after any append; the progress error; the loops and the `Runtime` object |
| `CohortAssurance`, `CohortMixedJournals` | terminal evidence and the one repair wave; journals that both runtimes wrote |
| `CampaignContinuity`, `ContinuityTheorems`, `ContinuityMeaning`, `ContinuityHistory`, `ContinuityRuns`, `ContinuityController` | the protocol and its validator; agreement and the meaning of a journal; what each call decides; checkpoints as history; runs with crashes and effects; the controller object |
| `Matching`, `Bracket`, `BracketRuns`, `BracketMeaning`, `BracketProtocol` | the maximum pairing; schedule and apply; every run of a bracket; what its decisions mean; the brackets a closed protocol admits |
| `MatchDecision` | the interval decision rule |
| `AutonomyBudget` | the reservation budget |

Where the source updates variables in loops or fields of an object, the model is a method with a loop or a
class, and its contract ties the new state to a function. The theorems are about that function.

## What came out

- **Dependency checks.** Peeling and depth-first search both accept exactly the acyclic dependency maps.
- **Benchmark.** Every schedule lies between the longest dependency chain, the longest set of mutually
  clashing packages and the serial time. A graph meets Graham's bound for all durations and worker counts
  exactly when its packages that clash are ordered by dependencies; on admitted graphs, exactly when those
  that share a lock are.
- **Runtime.** Runs that converge agree, whatever finishes when and wherever earlier processes died.
  The blocking pass looks at the results once per turn, so a failure that reaches a package only through
  another blocked one can raise the progress error with that package still pending. `StallsExactlyWhenStuck`
  says for every reachable loop state when it is raised. `StallNeedsCascade` says which cohorts are safe
  under every schedule and worker count. With room for every package `StallsExactly` says exactly which of the
  others have a raising schedule: those where everything can be executed before the policy gates have blocked
  the rest; without gates, all of them (`StallsExactlyOnCascade`). With too few workers a cascade need not raise
  under any schedule (`MaskedNeverRaises`). `ChainStalls` gives a family of cohorts that always raise, and
  `ResumeAfterStallProgresses` says that running again gets further.
- **Assurance.** An assured run never reports success without evidence for its own convergence, unless the
  plain runtime has continued its journal: the latest evidence is then taken without comparing its digest.
  `EvidencedExactly` is the exact condition and `MixedJournalLosesEvidence` an input. A judged success without
  any evidence counts as a failure. If the planner then has no repair, or one has been attempted before, the journal
  is completed as failed and cannot be read again; with a repair it stays readable (`ReadableExactly`,
  `AssuranceRuntime.Execute`, and `PlainJournalIsPoisoned` for an input).
- **Continuity.** The writer produces one kind of event that its validator refuses: the record of an adapter
  exception whose class name is empty or padded with space (`UnnamedIsRefused`). The call then raises after its
  intent, exactly as `StepRaises` and `RecoverRaises` say, and the journal stays valid. One real launch is the most that any
  run with crashes can cause.
- **Bracket.** A bye is chosen before the pairing, so a bracket can end with `no_schedulable_pairs` while
  two eligible entrants could still meet. `StrandedExactly` says when, and `ByeCanStrandAPlayablePair` is a run
  of a closed protocol that gets there after one round. With an even number of eligible entrants it cannot
  happen. The rounds are bounded by the entrants alone: with the four entrants that a closed protocol admits on
  a track a bracket ends by itself within 23 rounds, so the `max_rounds` terminal is unreachable.
- **Match decision.** Swapping the sides mirrors the verdict except on torn evidence, where both sides win from
  their own seat. Better evidence for the left side can turn its win into a draw
  (`BetterCanLoseTheWin`, with the exact condition in `BetterKeepsLeftExactly`).
- **Budget.** Settling removes a reservation before it compares the allowance, so a mismatched settlement
  leaks its claim for good. `ReservedExactly` says exactly when the reserved totals are the active claims.

## Model

| member | source | states |
|---|---|---|
| CampaignContracts.AdmitDependencies | src/hive_mind_os/campaign_contracts.py:560-570 | Unknown dependencies are refused; a known map is accepted iff it has no cycle iff it has a rank. Acceptance yields the rank, refusal a nonempty set in which everyone waits for another member. |
| Dependencies.StuckHasCycle | src/hive_mind_os/campaign_contracts.py:563-566 | A set in which everyone waits for a member contains a dependency cycle, so the refusal is never wrong. |
| Dependencies.AcyclicMeansNoCycle | src/hive_mind_os/campaign_contracts.py:563-570 | A rank excludes every cycle, so acceptance is never wrong. |
| OutcomeGraph.Visit | src/hive_mind_os/outcome_graph.py:96-105 | A completed visit leaves a dependency-closed, ranked set; meeting a package that is being visited exhibits a cycle. |
| OutcomeGraph.Search | src/hive_mind_os/outcome_graph.py:92-108 | The search over all ids succeeds iff the graph has no cycle, and yields a rank. |
| OutcomeGraph.Compile | src/hive_mind_os/outcome_graph.py:81-119 | Compilation succeeds exactly on graphs with distinct ids, a snapshot, a positive capacity, known acyclic dependencies and ordered writers; and each refusal is given exactly when its defect is the first in that order. |
| CohortBenchmark.OrderlyUpToLocks | src/hive_mind_os/outcome_graph.py:109-118 | Admission already orders all writers of a path, so only unordered lock sharing can make clashing packages unordered. |
| CohortBenchmark.LaunchReady | src/hive_mind_os/cohort_benchmark.py:142-156 | The inner loop over sorted pending packages equals the scan function that the pass lemmas are about. |
| CohortBenchmark.DispatchGreedy | src/hive_mind_os/cohort_benchmark.py:142-161 | A pass launches only ready, mutually clash-free packages within capacity, and leaves one behind only for a missing dependency, a clash or a lack of workers. |
| CohortBenchmark.DispatchNeverStalls | src/hive_mind_os/cohort_benchmark.py:162-163 | On an acyclic graph some package runs after every pass: the "cannot make progress" error is unreachable. |
| CohortBenchmark.Turn | src/hive_mind_os/cohort_benchmark.py:141-173 | The loop body raises exactly when nothing is active after the pass, and otherwise computes the next state of the event simulation. |
| CohortBenchmark.TurnReached | src/hive_mind_os/cohort_benchmark.py:141-173 | On an acyclic graph every turn from a reached state goes through without raising, keeps the simulation's invariant (partition, exclusivity, work and idle accounts, finish times, batches) and completes something. |
| CohortBenchmark.AdvanceExplained | src/hive_mind_os/cohort_benchmark.py:164-173 | If clashes are ordered, the idle worker time so far stays covered by a dependency chain that feeds every package that could have used it, and by some chain in all. |
| CohortBenchmark.ClashFits | src/hive_mind_os/cohort_benchmark.py:94-104 | Mutually clashing packages never overlap, so the sum of their durations fits before the last of them finishes. |
| CohortBenchmark.Simulate | src/hive_mind_os/cohort_benchmark.py:135-173 | The loop computes the outcome function of the instance. For every acyclic graph, duration map and worker count: elapsed is at most the serial time, at least every chain and every clashing set; workers times elapsed covers the work; batches partition the packages in dependency order; peak is within workers; Graham's bound when clashes are ordered. |
| CohortBenchmark.FinalGraham | src/hive_mind_os/cohort_benchmark.py:135-173 | The last step: from a chain that covers the idle time and from the account of work, workers * elapsed <= total + (workers - 1) * that chain. |
| GrahamExactness.GrahamExactlyWhenOrderly | src/hive_mind_os/cohort_benchmark.py:135-173 | An acyclic graph meets Graham's bound for every duration map and worker count iff packages that clash are ordered by dependencies. |
| GrahamExactness.GrahamExactlyWhenLocksOrdered | src/hive_mind_os/cohort_benchmark.py:135-173 | On graphs that admission accepts: iff packages that share a lock are ordered. |
| GrahamExactness.RivalsExceed | src/hive_mind_os/cohort_benchmark.py:94-104 | For any two unordered clashing packages of any acyclic graph, one unit of time each and two workers exceed the bound on every finished schedule. |
| GrahamExactness.GrahamNeedsOrderedLocks | src/hive_mind_os/cohort_benchmark.py:94-104 | The smallest instance: two packages with one lock. |
| CohortBenchmark.CompareExecutionTopologies | src/hive_mind_os/cohort_benchmark.py:107-189 | Each error exactly when its check fails. Otherwise the workers are exactly the fewer of those requested and those the graph allows; the strict estimate is serial, the cohort estimate is the outcome of the simulation with its bounds; cohort elapsed <= strict elapsed; Graham's bound when lock sharers are ordered. |
| CohortBenchmark.EstimateStrict | src/hive_mind_os/cohort_benchmark.py:124-133 | One worker, the packages one at a time in the given order, serial time, a checkpoint after each package and one at the end. |
| CohortBenchmark.EstimateCohort | src/hive_mind_os/cohort_benchmark.py:175-183 | The simulated elapsed time, peak and batches, all work as busy time, two checkpoints, and utilization times capacity equal to the work. |
| CohortBenchmark.UtilizationBounds | src/hive_mind_os/cohort_benchmark.py:32-35 | Utilization lies in [0, 1] and times capacity gives the busy time, whenever the busy time fits the workers, also when nothing elapsed. |
| LaunchOrder.DispatchInOrder | src/hive_mind_os/cohort_benchmark.py:142-161 | A pass launches exactly the packages that, next to those running and those chosen before them in identifier order, are ready, clash with none and still find a worker; the batch lists them in that order. |
| LaunchOrder.ChoiceIsUnique | src/hive_mind_os/cohort_benchmark.py:145-156 | Only one choice meets that rule. |
| LaunchOrder.AdvancesToEarliestFinish | src/hive_mind_os/cohort_benchmark.py:164-173 | Time moves to the earliest finish; exactly what finishes then is done, and everything still active ends later. |
| LaunchOrder.PeakExactly | src/hive_mind_os/cohort_benchmark.py:159-161 | The reported peak is the largest number of packages active at once. |
| LaunchOrder.ConflictExactly | src/hive_mind_os/cohort_benchmark.py:94-104 | Two packages clash iff some path or some lock belongs to both. |
| CohortJournal.PrefixAccepted | src/hive_mind_os/cohort_journal.py:202-245 | Every prefix of an accepted journal is accepted: a crash after any append leaves a readable journal. |
| CohortJournal.PrefixReplays | src/hive_mind_os/cohort_runtime.py:559-675 | Every nonempty prefix of a journal that replays replays too. |
| CohortJournal.ReplayKeepsResults | src/hive_mind_os/cohort_runtime.py:559-675 | A recorded package result is in the replayed results, whatever was appended after it. |
| CohortJournal.RunEventAccepted | src/hive_mind_os/cohort_journal.py:202-245 | The transition rules accept every run event after a replay that is not complete, provided a result is for a new package. |
| JournalMeaning.AcceptedExactly | src/hive_mind_os/cohort_journal.py:202-245 | A journal is accepted event by event iff as a whole it has one kickoff, first, nothing after a completion, one repair attempt, one repair result after it, and one result per package. |
| JournalMeaning.ReplayedResult | src/hive_mind_os/cohort_runtime.py:559-675 | The replayed result of a package is its latest, recorded or repaired. |
| JournalMeaning.ReplayedVerdicts | src/hive_mind_os/cohort_runtime.py:559-675 | Replay gives back the dispatched batches in order, the largest number of running packages, and the latest convergence and verification since the last repair event. |
| JournalMeaning.ReplayedSource | src/hive_mind_os/cohort_runtime.py:597-625 | A replayed executor result was dispatched before it; policy and dependency results have the states that go with them. |
| JournalMeaning.StatusExactly | src/hive_mind_os/cohort_runtime.py:541-556 | A run succeeded iff every package, the convergence and the verification did; failed iff one of them did; blocked iff none failed and some package was blocked. |
| CohortRuntime.LaunchOneExclusive | src/hive_mind_os/cohort_runtime.py:353-371 | Launching keeps the active paths and locks exactly the unions over pairwise disjoint active packages. |
| CohortRuntime.CompleteOneExclusive | src/hive_mind_os/cohort_runtime.py:394-398 | Subtracting a finished package's paths and locks releases nothing that another one still holds. |
| CohortRuntime.BlockNamesEarliest | src/hive_mind_os/cohort_runtime.py:322-337 | A blocked package is recorded as such, with the earliest of its dependencies recorded without success in the message. |
| CohortRuntime.BlockOneSound | src/hive_mind_os/cohort_runtime.py:313-337 | A package blocked by the pass is blocked in the recursive specification as well. |
| CohortRuntime.CompleteOneSound | src/hive_mind_os/cohort_runtime.py:393-417 | A package launched on succeeded dependencies gets the specified result, whatever else is running. |
| CohortRuns.TurnGood | src/hive_mind_os/cohort_runtime.py:312-417 | One turn, for any set of workers finishing in any order, keeps partition, exclusivity, worker cap, agreement of journal and memory, and agreement with the specification; it forgets nothing. |
| CohortRuns.BeginGood | src/hive_mind_os/cohort_runtime.py:238-278 | Replay and the policy gate lead from any journal a run left behind to such a state. |
| CohortRuns.PrefixSound | src/hive_mind_os/cohort_runtime.py:238-278 | Any crash prefix of a run's journal can be resumed. |
| CohortRuns.AttemptsKeepJournalSound | src/hive_mind_os/cohort_runtime.py:201-417 | Any number of attempts, each crashed after any append or ended by the progress error, leaves such a journal. |
| CohortRuns.Confluence | src/hive_mind_os/cohort_runtime.py:266-278 | After any attempts that crashed or raised, with any worker count and completion order, a run that converges, in a turn that finishes something or in one that only blocks, gives every package the state and output of the recursive specification: gated, else blocked, else executed on its dependencies' results. |
| CohortRuns.ConvergedMeaning | src/hive_mind_os/cohort_runtime.py:266-417 | Each result of a converged run is the gate's, or a block where some dependency's result is no success, or what the executor makes of the dependencies' results in that same run. |
| RuntimeLaunchOrder.PassesInOrder | src/hive_mind_os/cohort_runtime.py:339-384 | Every turn starts exactly the packages that the benchmark's rule chooses, records them as one batch in identifier order with the number then running, and raises the peak to it. |
| RuntimeLaunchOrder.FitsExactly | src/hive_mind_os/cohort_runtime.py:353-356 | The two bookkeeping sets answer exactly whether a package clashes with one that runs. |
| RuntimeLaunchOrder.RunPeak | src/hive_mind_os/cohort_runtime.py:372-374 | The recorded peak is the most packages that ran at once in the run and the attempts before it. |
| CohortRuns.NeverReexecutes | src/hive_mind_os/cohort_runtime.py:253-261 | After a resume no recorded package is ever active again and no recorded result changes. |
| CohortStall.StallsExactlyWhenStuck | src/hive_mind_os/cohort_runtime.py:386-390 | In every reachable state the progress error is raised iff nothing is active, nothing is ready, and some pending package has no unsuccessful dependency recorded. |
| CohortStall.StallNeedsCascade | src/hive_mind_os/cohort_runtime.py:313-390 | The error needs a package whose only unsuccessful dependencies are themselves dependency-blocked; without one no schedule raises. |
| CohortStall.AllSucceedNoCascade | src/hive_mind_os/cohort_runtime.py:386-390 | If every package succeeds no such package exists. |
| CohortStall.NoCascadeProgresses | src/hive_mind_os/cohort_runtime.py:312-391 | Without one, every turn of every run after any crashes has a package running or has converged. |
| CohortStall.RunsAreShort | src/hive_mind_os/cohort_runtime.py:312-417 | A run has at most as many turns as packages without a result. |
| CohortStall.ResumeAfterStallProgresses | src/hive_mind_os/cohort_runtime.py:386-390 | After the error, resuming the journal records at least one more package. |
| CohortStallSchedules.StallsExactly | src/hive_mind_os/cohort_runtime.py:312-417 | With a worker for every package and no shared paths or locks, gates or not: some order of completions of a fresh run raises the error iff for some number of turns everything can have been executed and the gates have not spread to some package that is blocked without a failed dependency of its own. |
| CohortStallSchedules.RunPaced | src/hive_mind_os/cohort_runtime.py:312-417 | In every run, whatever finishes when, nothing is executed ahead of its level and the gates spread by one step each turn. |
| CohortStallSchedules.StallsExactlyOnCascade | src/hive_mind_os/cohort_runtime.py:312-417 | Without gates: some order of completions raises the error iff the cohort has a cascade. |
| CohortStallSchedules.LockstepRaises | src/hive_mind_os/cohort_runtime.py:312-417 | The raising order: each level's successes finish together, and everything that fails finishes with the last level. |
| CohortMaskedCascade.MaskedNeverRaises | src/hive_mind_os/cohort_runtime.py:339-390 | One worker: A fails, B needs A, C needs B, D stands alone. C is a cascade, and no schedule raises. |
| CohortStallSchedules.RoomyLaunches | src/hive_mind_os/cohort_runtime.py:339-371 | With that room, the launching pass starts every ready package. |
| CohortStall.ChainStalls | src/hive_mind_os/cohort_runtime.py:313-390 | If the only root fails and some package does not depend on it directly, the second turn raises, for every such cohort and worker count. |
| CohortStall.FailingChainStalls | src/hive_mind_os/cohort_runtime.py:313-390 | The three-package instance: A fails, B needs A, C needs B, and the error is raised with C pending. |
| CohortExecution.BlockPass | src/hive_mind_os/cohort_runtime.py:313-337 | The blocking loop, possibly cut by a crash, equals the specified pass and keeps the state good. |
| CohortExecution.LaunchPass | src/hive_mind_os/cohort_runtime.py:339-371 | The launch loop equals the specified greedy pass. |
| CohortExecution.CompletePass | src/hive_mind_os/cohort_runtime.py:393-417 | Any nonempty set of finished workers, taken in any order, keeps the state good and adds results. |
| CohortExecution.GatePass | src/hive_mind_os/cohort_runtime.py:266-278 | The policy loop records exactly the pending gated packages and nothing when there are none. |
| CohortExecution.OneTurn | src/hive_mind_os/cohort_runtime.py:312-417 | A turn that does not crash stalls iff the loop state stalls; otherwise it has converged or adds a result. |
| CohortExecution.Schedule | src/hive_mind_os/cohort_runtime.py:312-417 | The scheduling loop terminates: crashed, stalled on a cascade, or converged in a good state; on a reliable host it does not crash. |
| CohortExecution.ReplayOrder | src/hive_mind_os/cohort_runtime.py:559-675 | In every accepted journal that replays, repaired or not, convergence presupposes all results, verification a convergence, completion a verification, and nothing follows completion. |
| CohortExecution.Runtime.Conclude | src/hive_mind_os/cohort_runtime.py:419-475 | From any journal with all results in: convergence, verification and completion are appended at most once each; the result carries the retained verdicts, or else what the converger and the verifier answer for its results, and is the one the journal stands for. |
| CohortExecution.Runtime.Execute | src/hive_mind_os/cohort_runtime.py:201-475 | From an empty journal or one left by runs: nothing it wrote is refused, a stall needs a cascade, a finished run has the specified results. From any journal with all results in, repaired or not: it is only concluded, on those results. Verdicts are the retained ones or the callbacks' answers. A completed journal is returned without an append, so re-execution gives the one record that the journal stands for. On a reliable host the run does not crash. |
| CohortAssurance.OneRepair | src/hive_mind_os/cohort_journal.py:219-233 | An accepted journal holds at most one repair attempt and one repair result. |
| CohortAssurance.WaveIsSerial | src/hive_mind_os/cohort_assurance.py:637-679 | Targets that pass the repair check may run together: the wave has the results of repairing them one after the other. |
| CohortAssurance.AssuranceRuntime.Assess | src/hive_mind_os/cohort_assurance.py:252-276 | The journaled verification is the assessor's if its evidence is for this convergence, which is journaled first; otherwise it fails and there is no evidence. |
| CohortAssurance.AssuranceRuntime.Judge | src/hive_mind_os/cohort_assurance.py:252-286 | A judged journal is left alone; any other gets the converger's answer unless one is retained, and the assessor's verdict on it. |
| CohortAssurance.ValidRepairExactly | src/hive_mind_os/cohort_assurance.py:637-679 | A directive is accepted iff its targets are distinct, known, ungated, independent of each other, and could hold their paths and locks at once. |
| CohortAssurance.AssuranceRuntime.RunRepair | src/hive_mind_os/cohort_assurance.py:326-427 | From any journal with all results in and no attempt: the attempt is journaled before any repair runs; the results are then those before with the wave's in their places, the convergence is the converger's for them, and the verdict the assessor's. |
| CohortAssurance.AssuranceRuntime.Execute | src/hive_mind_os/cohort_assurance.py:232-450 | Across crashes and restarts a wave starts only when the journal holds no attempt. Every succeeded result of an assured journal, fresh, resumed or repaired, carries evidence with the digest of its own convergence. From any journal with all results in, whoever wrote it: the result keeps that promise iff the journal is not stale, and the journal stays readable iff a repair ran or no success was without evidence. A repair runs iff the judged run failed, none was attempted and the planner has a valid one; the result is the judged run's or the repaired run's. A completed journal is returned unchanged. On a reliable host the call is not interrupted. |
| CohortAssurance.EvidencedExactly | src/hive_mind_os/cohort_assurance.py:277-312 | For every judged journal that reads and replays: what is returned keeps the evidence promise iff it is no success whose latest evidence is for another candidate. |
| CohortAssurance.ReadableExactly | src/hive_mind_os/cohort_assurance.py:293-312 | For every judged journal without completion: completing it with the returned status keeps it readable iff it is no success without any evidence. |
| CohortAssurance.AssuredIsCompleted | src/hive_mind_os/cohort_assurance.py:277-312 | A completed journal of assured runs is never stale and returns what it completed with. |
| CohortMixedJournals.PlainEndingIsStale | src/hive_mind_os/cohort_assurance.py:287-312 | If the plain runtime ends, with success and another candidate, a journal that holds evidence, the assured run reports that success with the old evidence. |
| CohortMixedJournals.MixedJournalLosesEvidence | src/hive_mind_os/cohort_assurance.py:287-312 | A concrete journal, left by an assured run that died after announcing its repair, on which this happens. |
| CohortMixedJournals.UnevidencedIsPoisoned | src/hive_mind_os/cohort_assurance.py:293-325 | A judged success without any evidence is returned as a failure; completed as that, the journal is accepted and replays, but its completion contradicts its results from then on. |
| CohortMixedJournals.PlainJournalIsPoisoned | src/hive_mind_os/cohort_assurance.py:314-325 | A plain run that died after a passed verification: an assured run without a repair makes its journal unreadable. |
| ContinuityTheorems.StepValid | src/hive_mind_os/campaign_continuity.py:844-903 | Whatever the adapter and clock do, the journal after `step` satisfies the state and transition validators. |
| ContinuityTheorems.UnnamedIsRefused | src/hive_mind_os/campaign_continuity.py:547-560 | The event that records an adapter exception after an intent is accepted iff the exception's class name is a proper text. |
| ContinuityTheorems.BlankNameRaises | src/hive_mind_os/campaign_continuity.py:881-891 | If `inspect` raises an exception with an empty class name, the step raises, and the journal ends with the spent reconciliation intent. |
| ContinuityTheorems.RecoverValid | src/hive_mind_os/campaign_continuity.py:815-842 | The same for `recover`. |
| ContinuityTheorems.RecordDeliveryValid | src/hive_mind_os/campaign_continuity.py:699-712 | The same for `record_delivery`. |
| ContinuityTheorems.RecordCandidateValid | src/hive_mind_os/campaign_continuity.py:714-726 | The same for `record_candidate`. |
| ContinuityTheorems.CountersCountIntents | src/hive_mind_os/campaign_continuity.py:455-583 | In every accepted journal the three counters equal the numbers of their intent events and stay within the scope's maxima. |
| ContinuityTheorems.PendingMeansUnsettled | src/hive_mind_os/campaign_continuity.py:446-453 | The outcome is pending iff some launch intent has no later authoritative STARTED or ABSENT receipt. |
| ContinuityTheorems.LaunchedIsConfirmed | src/hive_mind_os/campaign_continuity.py:408-424 | LAUNCHED implies an authoritative STARTED receipt for the selected operation and candidate. |
| ContinuityTheorems.LaterCheckpoints | src/hive_mind_os/campaign_continuity.py:477-480 | Along any accepted journal delivery, selection, operation and candidates never change once set, counters never fall, terminal phases stay terminal without further launches, and LAUNCHED changes nothing. |
| ContinuityMeaning.SelectionExactly | src/hive_mind_os/campaign_continuity.py:862-876 | The selection names the candidate of highest priority, then least identifier, among the allowed, reversible ones for this scope that are to be adopted or adapted; it lists exactly the eligible and exactly those passed over. |
| ContinuityMeaning.SelectionIsBest | src/hive_mind_os/campaign_continuity.py:497-516 | In every accepted journal the selected candidate is the best, in that order, of all that were ever recorded. |
| ContinuityMeaning.AuthorityDecides | src/hive_mind_os/campaign_continuity.py:733-777 | Dispatch goes on iff an independent observation binds the scope, permits the launch, verifies exactly the required evidence, is neither from the future nor too old, and the authority has not expired; otherwise the campaign is blocked with a reason. |
| ContinuityMeaning.RefusedForFirstReason | src/hive_mind_os/campaign_continuity.py:751-777 | The reason is that of the first check that fails. |
| ContinuityMeaning.DispatchIsAuthorized | src/hive_mind_os/campaign_continuity.py:585-599 | In every accepted journal each selection and each reconciliation or launch intent directly follows an observation that binds the scope and was made before the authority expired. |
| ContinuityMeaning.AnswerFollowsIntent | src/hive_mind_os/campaign_continuity.py:532-553 | Each answer directly follows its own intent, and each receipt is for the selected operation and candidate version. |
| ContinuityMeaning.AnswerSettles | src/hive_mind_os/campaign_continuity.py:791-813 | What an answer makes of the state: a denial, a mismatch or a typed refusal blocks, an authoritative start launches, an authoritative absence settles, anything else leaves it open. |
| ContinuityMeaning.AnswerRecords | src/hive_mind_os/campaign_continuity.py:779-813 | What is recorded of an answer: the receipt, the exception's class name with a proper code, or a stop for a mismatch. |
| ContinuityMeaning.DeliveryOutcome | src/hive_mind_os/campaign_continuity.py:699-712 | A repeated delivery changes nothing, a complete one that binds the scope is recorded while waiting, anything else stops with its reason. |
| ContinuityMeaning.CandidateOutcome | src/hive_mind_os/campaign_continuity.py:714-726 | A repeated candidate changes nothing, a new one is recorded while waiting, anything else stops as a conflict. |
| ContinuityMeaning.RecoverOutcome | src/hive_mind_os/campaign_continuity.py:815-842 | Only a pending outcome is inspected, each time at the cost of one recovery, and the receipt's word is taken over; without budget the campaign is exhausted. |
| ContinuityMeaning.StepOutcome | src/hive_mind_os/campaign_continuity.py:844-903 | What a step leads to, case by case: nothing, blocked, the best candidate selected, or reconciliation and launch with the budgets, the second authority check and the receipts deciding. |
| ContinuityMeaning.CheckpointMeaning | src/hive_mind_os/campaign_continuity.py:371-424 | What every checkpoint of an accepted journal satisfies. |
| ContinuityHistory.CheckpointIsHistory | src/hive_mind_os/campaign_continuity.py:481-516 | In every accepted journal the delivery, the candidates and the selection in force are exactly the ones that earlier events recorded. |
| ContinuityHistory.EventsInOrder | src/hive_mind_os/campaign_continuity.py:463-516 | A journal is initialized once and first; the delivery, each candidate and the choice are recorded once, nothing is recorded after the choice, and nothing is observed before a delivery. |
| ContinuityHistory.EventsCaused | src/hive_mind_os/campaign_continuity.py:532-583 | Recovery and its exhaustion rest on a launch intent without a settling receipt, exhaustion on exactly as many intents as the budget allows, stops and exceptions on proper texts; after a terminal phase only stops and recovery follow. |
| ContinuityHistory.IntentsName | src/hive_mind_os/campaign_continuity.py:517-536 | A reconciliation intent names no operation; launch and recovery intents name the operation of the scope with the recorded delivery and the chosen, recorded candidate. |
| ContinuityTheorems.PrefixValid | src/hive_mind_os/campaign_continuity.py:601-639 | Every prefix of an accepted journal is accepted. |
| ContinuityRuns.StepsTerminate | src/hive_mind_os/campaign_continuity.py:844-903 | Once a delivery is recorded, `maximum_reconciliations` + 2 uninterrupted steps reach a terminal phase, whatever the adapter answers. |
| ContinuityRuns.StepLaunchesOnlyOnAbsence | src/hive_mind_os/campaign_continuity.py:881-903 | A step that persists a launch intent was told in that step, by a receipt bound to the selected operation and candidate, that there is no effect. |
| ContinuityRuns.IntentFollowsAbsence | src/hive_mind_os/campaign_continuity.py:522-531 | The validator's launch rule, at every position of an accepted journal: a launch intent directly follows a permitting observation and, before it, an authoritative absence. |
| ContinuityRuns.AtMostOneEffect | src/hive_mind_os/campaign_continuity.py:881-903 | Over every sequence of calls, each crashed after any append, with an adapter whose authoritative ABSENT for the selected operation means no effect: at most one real launch, launch calls covered by persisted intents within the budget, and an accepted journal. |
| ContinuityController.Controller.Events | src/hive_mind_os/campaign_continuity.py:601-639 | Re-reading succeeds iff the journal is nonempty, every event explains its checkpoint, and what was seen before is a prefix. |
| ContinuityController.Controller.Append | src/hive_mind_os/campaign_continuity.py:641-682 | An event is appended iff it satisfies both validators; otherwise nothing changes. |
| ContinuityController.Controller.DoStep | src/hive_mind_os/campaign_continuity.py:844-903 | Whatever the adapter does, the object's `step` leaves exactly the specified, valid journal; its own `_append` refuses an event iff an exception without a proper class name is to be recorded. |
| ContinuityController.Controller.DoRecover | src/hive_mind_os/campaign_continuity.py:815-842 | The same for `recover`. |
| ContinuityController.Controller.DoRecordDelivery | src/hive_mind_os/campaign_continuity.py:699-712 | The object's `record_delivery` is never refused by its own `_append` and leaves exactly the specified journal. |
| ContinuityController.Controller.DoRecordCandidate | src/hive_mind_os/campaign_continuity.py:714-726 | The same for `record_candidate`. |
| Matching.PairUp | src/hive_mind_os/campaign_metrics.py:1377-1396 | The loop equals the pairing function that the next three members are about. |
| Matching.MaximumPairsIsMatching | src/hive_mind_os/campaign_metrics.py:1377-1396 | The pairs are disjoint, compatible and have met inconclusively fewer than two times. |
| Matching.MaximumPairsIsMaximum | src/hive_mind_os/campaign_metrics.py:1377-1396 | No such set of pairs over the same distinct entrants is larger. |
| Matching.PairsExactlyWhenPlayable | src/hive_mind_os/campaign_metrics.py:1377-1396 | The pairing is empty iff no two of the entrants may meet. |
| BracketMeaning.PlayableExactly | src/hive_mind_os/campaign_metrics.py:1368-1375 | Two entrants may meet iff their tracks and regimes agree and they have met without a result less than twice. |
| BracketMeaning.PairingPrefers | src/hive_mind_os/campaign_metrics.py:1377-1396 | Among the largest pairings the first entrant is left out if that costs nothing, and otherwise gets the earliest partner that gives the most pairs. |
| Bracket.CoversExactly | src/hive_mind_os/campaign_metrics.py:1712-1725 | Results are accepted iff there is one for each issued receipt, none twice, with BYE exactly on the bye. |
| Bracket.ApplyLoop | src/hive_mind_os/campaign_metrics.py:1733-1755 | The loop over the submitted results equals the specified fold. |
| Bracket.Registry.Apply | src/hive_mind_os/campaign_metrics.py:1686-1780 | A call leaves exactly the bracket that the step function says and raises exactly when it says so; a terminal found by scheduling is committed even when results are then turned away. |
| BracketRuns.OrderedByLosses | src/hive_mind_os/campaign_metrics.py:1614-1618 | Entrants are paired in order of losses, then identifier, counting from `round` places on and wrapping round. |
| BracketRuns.RoundIssued | src/hive_mind_os/campaign_metrics.py:1614-1636 | An issued round has one bye, first, iff the eligible are odd, and at least one pair; players are eligible, none appears twice, no pair has met twice inconclusively. |
| BracketRuns.RoundProgress | src/hive_mind_os/campaign_metrics.py:1733-1757 | Every applied round raises losses + inconclusive meetings + quarantined by at least its number of pairs, hence strictly. |
| BracketRuns.RunInvariant | src/hive_mind_os/campaign_metrics.py:1686-1780 | After any calls from an empty bracket: losses, byes, meetings and quarantine are exactly what the applied results say of each entrant and pair; losses + byes + inconclusive + quarantine outcomes equals results applied; losses, with a quarantine as one more, stay within three; byes are fair; no record names an outsider; rounds are covered by progress. |
| BracketRuns.RunLimits | src/hive_mind_os/campaign_metrics.py:1594-1624 | No entrant has more than 3 losses, no pair more than 2 inconclusive meetings, bye counts of eligible entrants differ by at most one, and the "ineligible entrant" error is unreachable. |
| BracketMeaning.EligibleExactly | src/hive_mind_os/campaign_metrics.py:1594-1599 | After any calls an entrant is eligible iff it is on the track, no applied result has expelled it and fewer than three have beaten it. |
| BracketMeaning.ByeExactly | src/hive_mind_os/campaign_metrics.py:1619-1624 | There is a bye iff the eligible are odd; it goes to the fewest byes, then the least identifier. |
| BracketMeaning.RefusedExactly | src/hive_mind_os/campaign_metrics.py:1524-1541 | Scheduling refuses a bracket exactly when one of its records is about somebody who is not an active entrant of the track. |
| BracketMeaning.ScheduleExactly | src/hive_mind_os/campaign_metrics.py:1585-1636 | Which plan is made: refused for outsiders, ended for the first of the reasons that applies, or a round. |
| BracketMeaning.RoundIsMaximal | src/hive_mind_os/campaign_metrics.py:1625-1636 | An issued round holds at least as many pairs as any matching of the eligible without the bye. |
| BracketMeaning.CallExactly | src/hive_mind_os/campaign_metrics.py:1694-1780 | A played round counts one and ends the bracket iff the cap is reached; no other call changes anything but the terminal; and when a call raises. |
| BracketRuns.RoundsBounded | src/hive_mind_os/campaign_metrics.py:1587-1592 | With n active entrants fewer than n(n+2) rounds are ever applied, whatever the cap; a cap that is not smaller never ends a bracket. |
| BracketProtocol.ActiveCount | src/hive_mind_os/campaign_metrics.py:1332-1351 | A bracket of a closed protocol has no, two or four active entrants. |
| BracketProtocol.CapIsUnreachable | src/hive_mind_os/campaign_metrics.py:1756-1757 | In every run of a closed protocol at most 23 rounds are applied, and neither `apply` nor `schedule` reports `max_rounds`. |
| BracketRuns.ContinuesExactlyWhenPlayable | src/hive_mind_os/campaign_metrics.py:1594-1633 | An open bracket below the cap schedules a round iff two eligible entrants other than the bye are playable. |
| BracketRuns.EvenAlwaysContinues | src/hive_mind_os/campaign_metrics.py:1619-1633 | With an even number of eligible entrants an open bracket below the cap schedules a round iff any two of them are playable. |
| BracketRuns.StrandedExactly | src/hive_mind_os/campaign_metrics.py:1619-1633 | A bracket ends while a pair is playable iff there is a bye and every playable pair needs its holder. |
| BracketProtocol.NewBracketIsNeverStranded | src/hive_mind_os/campaign_metrics.py:1594-1633 | A new bracket of a closed protocol starts with a round iff two entrants are playable. |
| BracketProtocol.ByeCanStrandAPlayablePair | src/hive_mind_os/campaign_metrics.py:1619-1633 | A run of a closed protocol that ends after one round while MB1 and MB2, who have met once, are eligible and playable: MB1 has the bye. |
| MatchDecision.SwapMirrors | src/hive_mind_os/campaign_metrics.py:2040-2090 | Seen from the other side the verdict is the mirrored one iff the evidence is not torn; torn evidence is LEFT from both sides. |
| MatchDecision.SwapTwice | src/hive_mind_os/campaign_metrics.py:2040-2053 | Swapping the sides of admissible evidence gives admissible evidence, and twice gives it back. |
| MatchDecision.GatesExactly | src/hive_mind_os/campaign_metrics.py:2041-2058 | The verdict is out of domain iff an interval is; otherwise it quarantines exactly the sides whose gates failed. |
| MatchDecision.VerdictExactly | src/hive_mind_os/campaign_metrics.py:2059-2090 | With both gates passed, when each of the four verdicts is given, with the margin 0.05 and the tolerance of a tenth. |
| MatchDecision.TornMatch | src/hive_mind_os/campaign_metrics.py:2081-2089 | A concrete match that both sides win from their own seat. |
| MatchDecision.BetterKeepsLeftExactly | src/hive_mind_os/campaign_metrics.py:2065-2090 | If evidence improves for a winning left side, it still wins iff its success interval clears zero or stays below 0.05; otherwise the verdict drops to a draw. |
| MatchDecision.BetterCanLoseTheWin | src/hive_mind_os/campaign_metrics.py:2069-2073 | A concrete match: raising the success interval past 0.05 without clearing zero turns the left side's win into a draw. |
| AutonomyBudget.NextConserves | src/hive_mind_os/autonomy.py:116-200 | Only accepted spending and claiming move used + reserved; a settlement conserves it, right or wrong. |
| AutonomyBudget.NextClaims | src/hive_mind_os/autonomy.py:142-200 | Reserved minus the active claims changes exactly by what an operation drops. |
| AutonomyBudget.RunBalanced | src/hive_mind_os/autonomy.py:110-200 | Over every sequence of operations: used + reserved within every maximum, each claim within its allowance and the per-episode cap, used + reserved equal to the opening plus all that was granted, reserved equal to the active claims plus what leaked. |
| AutonomyBudget.NextEpisodes | src/hive_mind_os/autonomy.py:138-200 | An operation uses up one episode iff it is an accepted consumption or settles an active reservation with something claimed, and otherwise none. |
| AutonomyBudget.RunEpisodes | src/hive_mind_os/autonomy.py:138-200 | Over any operations the episode count is the opening plus those used up. |
| AutonomyBudget.AllowanceIsLargest | src/hive_mind_os/autonomy.py:201-213 | An allowance is the largest that fits the per-episode cap and the room left. |
| AutonomyBudget.GrantExactly | src/hive_mind_os/autonomy.py:110-151 | An allowance or a reservation is granted iff an episode and some of each resource are left. |
| AutonomyBudget.ValueErrorExactly | src/hive_mind_os/autonomy.py:116-194 | A call is the caller's error iff an amount is negative or the reservation is not active. |
| AutonomyBudget.AcceptedExactly | src/hive_mind_os/autonomy.py:116-185 | A well-formed consumption or claim is accepted iff it stays within its allowance and within the room left. |
| AutonomyBudget.ReservationsExactly | src/hive_mind_os/autonomy.py:153-200 | An accepted claim grows its own reservation only; a settlement removes its own only, and commits its claim iff it was active. |
| AutonomyBudget.ReservedExactly | src/hive_mind_os/autonomy.py:187-200 | After any operations reserved equals the sum of the active claims iff none of them lost a claim: a settlement that found its identifier with another allowance, or a reservation under an identifier in use, with something claimed. |
| AutonomyBudget.HonestNeverLeaks | src/hive_mind_os/autonomy.py:187-200 | In particular when identifiers are not reused and each settlement presents a reservation as issued. |
| AutonomyBudget.RefusedSettlementLeaks | src/hive_mind_os/autonomy.py:191-193 | A settlement with the wrong allowance raises, yet the reservation is gone and its claim stays reserved without a record. |
| AutonomyBudget.LeakNeverReturns | src/hive_mind_os/autonomy.py:191-195 | Whatever is done afterwards, what leaked stays reserved. |
| AutonomyBudget.AllowanceIsSpendable | src/hive_mind_os/autonomy.py:201-213 | An allowance just issued can be spent in full, in one piece or through a reservation. |
| AutonomyBudget.OverdrawnIsFrozen | src/hive_mind_os/autonomy.py:215-227 | A budget constructed beyond one of its maxima refuses every operation and never changes. |
| AutonomyBudget.Budget.ExhaustedIsFull | src/hive_mind_os/autonomy.py:215-232 | An exhausted budget can reserve nothing; with nothing reserved the two tests agree. |
| AutonomyBudget.Budget.IssueAllowance | src/hive_mind_os/autonomy.py:110-114 | Answers as specified and changes nothing. |
| AutonomyBudget.Budget.ConsumeUnits | src/hive_mind_os/autonomy.py:116-140 | Answer and new books as specified, the budget's invariant kept. |
| AutonomyBudget.Budget.ReserveEpisode | src/hive_mind_os/autonomy.py:142-151 | The same for a reservation. |
| AutonomyBudget.Budget.ReserveConsumption | src/hive_mind_os/autonomy.py:153-185 | The same for a claim. |
| AutonomyBudget.Budget.SettleReservation | src/hive_mind_os/autonomy.py:187-200 | The same for a settlement, which removes the reservation before it compares the allowance. |

## Left out

- Canonical JSON and SHA-256: a digest is an injective function, so comparing digests is comparing values; the candidate digest of a convergence is its output.
- File locks, hard links, fsync, symbolic-link checks and the pending-link repair: an append is atomic, and a crash may follow any append.
- Threads and clocks: workers finish in any order, one at a time; the clock is an arbitrary value or absent. In `CohortRuns` and `CohortExecution` the executor is a function of the package and its dependencies' results.
- Field formats (identifier patterns, digest syntax, type tests) are given by Dafny's types. `CampaignContinuity` keeps the test for nonblank text, over ASCII white space.
- Message texts: a blocked package names its least unsuccessful dependency, where the source names the first in the package's own order; results are compared by state and output.
- The cohort policy is the set of packages it gates; the other checkpoint dispositions do not change a run.
- The dispatch index in the journal, the audit copy of the first run in a repair attempt, and the digests in benchmark receipts.
- Executors, convergers, verifiers and assessors that raise: they are total functions here, and the failed result that the source builds from an exception is one of their values. An assessor that raises is modelled.
- CohortExecution.Runtime.Execute: an incomplete journal whose results come from elsewhere is not among its inputs, because its results need not be those of this cohort's executor.
- CohortAssurance.AssuranceRuntime.Execute: the same; any journal with all results in is an input, whoever wrote it.
- Cohorts without a journal: the model always has one.
- `resume=False`, which only refuses a nonempty journal.
- CohortStallSchedules.StallsExactly: is about cohorts with a worker for every package and no clashes. With fewer workers or clashes the order of launches decides as well, as `MaskedNeverRaises` shows; there `StallNeedsCascade` holds in one direction, and `StallsExactlyWhenStuck` in both for every loop state.
- The admission registry: leases are a live/expired flag, receipts are positions in the issued round, and compare-and-set is an atomic update of one variable. Task and seed assignment of a round, and the seals, are not modelled.
- The co-binding checks of `decide_match` on aggregate receipts, bootstrap sampling and floating-point rounding: the decision is over arbitrary intervals of reals, with 1.10 exactly 11/10.
- Compute units of the budget are reals, and the fresh identifier of a reservation is a parameter.
- `EvolutionArena` and `AutonomousMissionLoop`: averages over recorded outcomes and a loop around the budget; they would add only easy members.
- `CampaignMission` beyond its dependency loop, `WorkPackage` completion rules, `parse_campaign_mission` and `to_document`: field-by-field validation.
- Command line, adapters, routing, activation bundles, services and the corpus harness.
