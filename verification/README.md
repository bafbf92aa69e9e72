# A verified model of the file-system contract-test harness

The repository runs contract checks against `qubit-fs` providers. The checks
depend on provider code, but the harness around them is a state machine with a
job of its own: it must not lose a resource it created, must not lose a piece of
evidence, and must not report success wrongly, although providers may fail,
panic, lie, or be dropped in the middle of a call. This project models that
harness in Dafny and proves what it keeps.

Providers, fixtures and probes are adversaries. A provider answers from a state
of its own choosing (`Ledger.Provider`), and moves to any state when a pending
call is dropped. A future is polled for a `Lifetime`: to its end, or for a number
of completed awaits before it is dropped. A dispatched phase is an arbitrary list
of effects followed by a return, a failure, a panic or a drop. A panic that the
source catches is a reply; one that it does not catch leaves scope in Rust's drop
order, which is written out (`Probes.ProbeRun.Unwind`).

## Layout

| file | contents |
|---|---|
| `Common.dfy`, `StableSorting.dfy` | shared values; the stable sort and its laws |
| `Ledger.dfy`, `Audits.dfy` | one cleanup attempt as a walk over the ledger; cancellation; the two ledger orders; what its calls and answers say by themselves |
| `Trees.dfy` | cleanup against an honest hierarchical file system |
| `Names.dfy` | generated names |
| `Reports.dfy`, `Histories.dfy`, `Completions.dfy` | the report as a write-once map, its verdict and its diagnostics; what they mean over the history that built it; the order of its checks |
| `Runs.dfy`, `Contexts.dfy` | the retained run, the check catalog, the shared context with both cleanup loops |
| `Sessions.dfy`, `Suites.dfy` | the session automaton and the two suite drivers proved against it |
| `Verdicts.dfy`, `RunVerdicts.dfy`, `Custody.dfy`, `Frontier.dfy` | theorems over whole histories: verdict, custody of resources; single and focused runs; early stop |
| `Writers.dfy`, `Probes.dfy`, `ProbeOutcomes.dfy` | writer sessions and their aborts; write and copy cancellation probes, and what decides them |
| `Listings.dfy`, `WriteLimits.dfy`, `Ownership.dfy` | listing checks, write-limit probe, ownership of retained failures |

Specification functions describe single steps and attempts; the methods of the
classes are proved equal to them, and the theorems are lemmas about them.
Every lemma switches automatic induction off, so each proof is what its body says.

## What the code does where it differs from its documentation

- `ContractReport::checks` is documented as the order in which outcomes were
  produced (`src/contract_report.rs:48-52`). Checks keep registration order, because a
  completion overwrites its placeholder (`Reports.ChecksStayInRegistrationOrder`). The
  documented order holds exactly when every completion happens while all checks
  registered later are pending (`Completions.ChecksAreInCompletionOrderIff`), for a
  whole phase exactly when it runs in catalog order (`Completions.WholePhaseInOrderIff`).
  The list phase does not (`src/file_system_contract_suite/list.rs:34-41` against
  `src/contract_check_id.rs:196-201`), even when it is satisfied
  (`Completions.ListPhaseIsOutOfOrder`).
- `cleanup` says failed entries keep a stable order. Once the creation counter has
  saturated, several entries share an index, and the blocking attempt reverses
  them each time (`Ledger.SharedIndicesAreReversed`, with two entries
  `Ledger.SaturatedLedgerIsSwapped`); both drivers leave the same ledger against every
  provider exactly when no two entries share an index (`Ledger.LedgersAgreeIffStrict`).
- `teardown_completed` is described as recording that cleanup was attempted; it
  is set exactly by a teardown that succeeded (`Sessions.TeardownNeverRepeats`), and not
  by an attempt whose teardown failed (`Sessions.AttemptedIsNotTornDown`).
- Generated names are called unique. Two names can be equal exactly when their
  suffixes are equal and they were made inside one `begin`, or after two with a
  saturated counter (`Names.NamesCollideIff`, `Names.NamesNeverCollide`).
- Cancellation probes promise explicit recovery. When an execution that was never
  polled changes the operation, the probe returns without the operation, and a session
  the operation then holds is neither aborted nor returned: exactly in this case
  (`Probes.ProbeRun.RunWriteProbe`, `Probes.ProbeRun.RunCopyProbe`; `Probes.LoseSession`
  shows one).

## Assumptions

- The catalog is an arbitrary classification of checks, plus a list per phase.
  Theorems that need it ask that no list repeats a check; that phases do not
  share checks is derived from the filter on the owning phase.
- For early stop only: a phase completes and fails checks of its own (`Frontier.Owns`).
- For what retries leave under recursive deletion only (`Trees.RetriesTakeNothingElse`):
  a dropped call leaves no path without its directories.
- Check labels contain no digits (all labels in the repository satisfy this).
- Paths are compared by their text, and texts are identified with paths.
- `usize` and `u64` counters that the source increments without saturation
  (`attempts`) do not overflow.

## Model

| member | source | states |
|---|---|---|
| Ledger.CutIsPrefixOfFull | src/contract_context.rs:329-431 | dropping an awaiting cleanup anywhere issues exactly the first calls of the full attempt, leaves a prefix of the ledger untouched, and has settled the rest as the full attempt does |
| Ledger.OnlyMissingResourcesLeave | src/contract_context.rs:209-316 | whatever leaves the ledger was reported missing by the provider in that very attempt, whether it finished or was dropped |
| Ledger.LedgerOnlyShrinks | src/contract_context.rs:329-431 | an attempt never invents a ledger entry |
| Ledger.LedgerIsFiltered | src/contract_context.rs:329-431 | a full attempt leaves the original ledger filtered to the entries it did not release, in creation order |
| Ledger.OneComplaintPerKeptResource | src/contract_context.rs:213-316 | a finished attempt records exactly one failure per entry it keeps, naming it, last entry first |
| Ledger.ReleasesAddUp | src/contract_context.rs:213-316 | over every attempt, finished or dropped, the ledger it found is as long as the ledger it leaves plus the answers that reported a missing path |
| Audits.AttemptIsAudited | src/contract_context.rs:213-431 | the calls and answers of every attempt account for what it did: each visit stats, deletes what the stat reported, verifies an accepted deletion, and stops at the first other answer; the entry is released exactly if that answer reported it missing, and otherwise kept with the one failure that answer explains |
| Audits.AuditedDeletesAreInformed | src/contract_context.rs:222-256 | every deletion directly follows a stat of its path that reported the kind it deletes |
| Ledger.WalkSplits | src/contract_context.rs:333-431 | an attempt is the attempt over its later entries followed by the attempt over the earlier ones, wherever it is dropped |
| Ledger.StrictLedgersAgree | src/contract_context.rs:314-315 | with distinct creation indices, sorting the retained entries restores creation order against every provider |
| Ledger.LedgersAgreeIffStrict | src/contract_context.rs:214-315 | blocking and awaiting cleanup leave the same ledger against every provider if and only if no two entries share an index |
| Ledger.RestoreIsSortedPermutation | src/contract_context.rs:314 | at index saturation the blocking order is still a permutation sorted by index |
| Ledger.SharedIndicesAreReversed | src/contract_context.rs:314 | entries that share an index change their order with every blocking attempt that keeps them |
| Ledger.SaturatedLedgerIsSwapped | src/contract_context.rs:314 | two entries at the saturated index, kept by a blocking attempt, have changed places |
| Ledger.AttemptKeepsOrdered | src/contract_context.rs:142-152 | an attempt, finished or dropped, keeps one entry per path in creation order |
| StableSorting.StableSortSorts | src/contract_context.rs:314 | the sort by creation index sorts |
| StableSorting.StableSortIsStable | src/contract_context.rs:314 | the sort by creation index never reorders entries that tie |
| StableSorting.RestoredReversalHasNoTies | src/contract_context.rs:314 | a list that survives reversal and stable sorting has no ties |
| Trees.FlatCleanupExact | src/contract_context.rs:213-258 | on an honest hierarchy without recursive deletion one attempt empties the ledger if and only if whatever lies below a recorded directory was recorded after it; then exactly the recorded paths disappear |
| Trees.ParentsFirstDrains | src/contract_context.rs:142-152 | recording every directory before its contents, and all of its contents, is enough for that |
| Trees.RecursiveCleanupEmpties | src/contract_context.rs:242-256 | with recursive deletion one attempt empties every ledger in any recording order and removes what lies at or below a recorded path |
| Trees.DroppedAttemptLeavesClearable | src/contract_context.rs:363-431 | on an honest hierarchy a dropped attempt records no failure, and a later one can still clear what it left |
| Trees.RetriesFinishTheJob | src/contract_context.rs:316-329 | after any number of dropped attempts, one that runs to its end leaves an empty ledger and none of the recorded paths |
| Trees.RetriesTakeNothingElse | src/contract_context.rs:316-431 | dropped attempts and their retries together take exactly what one undisturbed attempt takes: the recorded paths, or with recursive deletion what lies at or below them |
| Names.NameDeterminesParts | src/contract_context.rs:82-89 | a generated name determines its counter and suffix, whatever the labels |
| Names.NamesNeverCollide | src/contract_context.rs:120-123 | names made after different begins differ for all labels and suffixes if and only if the counter was not saturated |
| Names.NamesCollideIff | src/contract_context.rs:82-89 | two names can be equal if and only if their suffixes are and they were made inside one begin, or with a saturated counter |
| Names.NameOfLabel | src/contract_context.rs:82-89 | a name is the label without slashes, the decimal counter and the suffix |
| Contexts.ContractContext.Begin | src/contract_context.rs:120-123 | a begin takes the next counter value and relabels what follows |
| Contexts.ContractContext.constructor | src/contract_context.rs:61-70 | a new context holds an empty run and an empty ledger |
| Contexts.ContractContext.RecordResource | src/contract_context.rs:142-152 | a path is tracked once, under its first owner, with the next index |
| Contexts.ContractContext.RecordCreated | src/contract_context.rs:131-133 | a created path is tracked under the current label |
| Contexts.TrackingKeepsOrdered | src/contract_context.rs:142-152 | tracking keeps the ledger in creation order, with distinct indices until saturation |
| Contexts.ContractContext.RecordCheck | src/contract_context.rs:161-168 | a completion goes through the write-once report |
| Contexts.ContractContext.PreparePhase | src/contract_context.rs:176-180 | every check of a phase is registered, in catalog order |
| Contexts.ContractContext.Fail | src/contract_context.rs:187-198 | a failure is kept, and fails the check it is attributed to |
| Contexts.ContractContext.Release | src/contract_context.rs:215-312 | one blocking visit stats, deletes by the kind reported, verifies, and ends at the first answer that is not a success; it keeps the entry unless that answer reported it missing, and then adds the failure that answer explains |
| Contexts.ContractContext.Sweep | src/contract_context.rs:213-315 | the pop, retain, sort loop is the walk over the ledger: same calls, same failures, same world |
| Contexts.ContractContext.Cleanup | src/contract_context.rs:209-316 | blocking cleanup does nothing without Delete, and otherwise is one full attempt that its logged calls and answers account for; what it keeps is stored by index, in the order it had with distinct indices |
| Contexts.ContractContext.ReleaseAt | src/contract_context.rs:334-430 | one awaiting visit makes the same calls, removes the entry in place exactly if its last answer reported it missing, and on a drop leaves it and adds nothing |
| Contexts.ContractContext.SweepAsync | src/contract_context.rs:333-430 | the descending in-place loop is the same walk, for every number of completed awaits, with every index in bounds |
| Contexts.ContractContext.CleanupAsync | src/contract_context.rs:329-431 | awaiting cleanup does nothing without Delete, and otherwise leaves exactly what its logged calls and answers account for, dropped or not |
| Reports.ContractReport.Expect | src/contract_report.rs:184-189 | expecting a new id opens a pending slot; a known id is left alone |
| Reports.ContractReport.Register | src/contract_report.rs:212-225 | registering a new id places a pending not-run check with its capability; a repeated registration is logged and changes nothing else |
| Reports.ContractReport.Record | src/contract_report.rs:235-263 | a completion fills its pending check and no other; a core check that is skipped, a second completion and an unregistered one are logged, and nothing else is |
| Reports.ContractReport.RemovePending | src/contract_report.rs:248-257 | the position found in the pending list is the only one, and removing it removes the id |
| Reports.ContractReport.Store | src/contract_report.rs:258-263 | the check with the id is overwritten in place, or appended when there is none |
| Reports.ContractReport.Issues | src/contract_report.rs:127-167 | the issues listed by a failing assertion are exactly the defects of the report, and there are none if and only if the requirements are met |
| Reports.DefectsDecideVerdict | src/contract_report.rs:78-97 | in a reachable report the requirements hold if and only if there is no defect, although no defect looks at the pending list |
| Reports.PendingInvariantIsNeeded | src/contract_report.rs:30-40 | outside the reachable reports the diagnostics can miss an unmet requirement |
| Reports.ExpectRefinesMap | src/contract_report.rs:184-189 | expecting adds a pending slot to the write-once map |
| Reports.RegisterRefinesMap | src/contract_report.rs:212-225 | registering adds a pending slot to the write-once map |
| Reports.RecordRefinesMap | src/contract_report.rs:235-263 | completing fills a pending slot of the write-once map and changes no other |
| Reports.RecordMeans | src/contract_report.rs:235-263 | what a completion does to checks, expectations, pending ids and violations, for every report |
| Histories.HistoryMirrored | src/contract_report.rs:184-263 | over every history the report expects what was registered, and logs a violation exactly unless each check was registered once, completed at most once and after that, nothing else was completed, and no core check was skipped |
| Histories.SatisfiedIffOrderlyAndComplete | src/contract_report.rs:78-97 | a report meets a policy if and only if its history was so, completed everything it registered with sufficient evidence, and the policy asks for nothing else |
| Histories.SecondCompletionIsLogged | src/file_system_contract_suite/temp_file_check.rs:485-493 | recording a check a second time, as the synchronous temporary-file check does, is logged and spoils every policy |
| Histories.DefectsNameShortfalls | src/contract_report.rs:127-167 | the diagnostics name exactly the checks that are unrecorded, insufficient, or required and not registered |
| Reports.ReportRefinesMap | src/contract_report.rs:184-263 | over every sequence of registrations and completions the three lists stay consistent and refine the write-once map |
| Reports.CompletionIsFinal | src/contract_report.rs:248-263 | a completed check never changes its capability or outcome |
| Reports.DoomIsForever | src/contract_report.rs:235-263 | a violation or an unacceptable completion stays, and no policy is ever satisfied again |
| Reports.ChecksStayInRegistrationOrder | src/contract_report.rs:211-263 | checks are listed in registration order whatever the order of completions |
| Completions.ListedAsCompletedIff | src/contract_report.rs:211-263 | over every sequence of registrations and completions, the completed checks are listed in the order of their completion if and only if every completion happened while all checks registered later were pending |
| Completions.ChecksAreInCompletionOrderIff | src/contract_report.rs:48-56 | the order that `checks()` promises holds exactly when every completion is in turn |
| Completions.WholePhaseInOrderIff | src/contract_context.rs:176-180 | a phase run to its end lists its checks in the order of their completion if and only if it ran in the order in which it was registered |
| Completions.ListPhaseIsOutOfOrder | src/file_system_contract_suite/list.rs:33-46 | a satisfied list phase lists its checks in catalog order, which is not the order in which they were completed |
| Reports.PoliciesCombine | src/contract_report.rs:78-97 | requiring two selections is requiring their union |
| Reports.PolicyIsAntitone | src/contract_report.rs:78-97 | requiring less is never harder |
| Reports.AllApplicableIsStrongest | src/contract_report.rs:105-107 | verifying every applicable check is the default requirement without any skip, and implies every policy within the run |
| Runs.Catalog.ForContract | src/internal/check_catalog.rs:764-775 | a phase gets exactly the checks it owns and the driver can run, in catalog order |
| Runs.ApplicableDistinct | src/internal/check_catalog.rs:764-775 | filtering a list without repetitions leaves none |
| RunVerdicts.SelectionIsRegistered | src/file_system_contract_suite.rs:189-199 | registration follows the selection phase by phase, each in catalog order with the catalog's capabilities and only for checks the driver can run; a focused run registers its check alone |
| Frontier.SelectionOnFresh | src/file_system_contract_suite.rs:194-198 | a fresh report then holds exactly those checks, not run and pending; a blocking run has no asynchronous-only one |
| RunVerdicts.FocusedRegistration | src/file_system_contract_suite.rs:190-193 | a focused run starts from a report that expects its check alone, pending, not run, with its capability and without a violation |
| Sessions.FinishSucceedsExactly | src/file_system_contract_suite/support.rs:132-174 | a finish that returns succeeds if and only if the fixture is torn down and, with Delete supported, the ledger is empty; otherwise the failure history grows |
| Sessions.FinishLeaves | src/file_system_contract_suite/support.rs:132-174 | a finish adds the complaints of its attempt and then of its teardown, and calls teardown whenever cleanup returned and no teardown had succeeded, whatever cleanup reported |
| Sessions.AttemptAccounts | src/contract_context.rs:209-316 | each finished attempt adds exactly as many failures as it retains resources, and retained and released resources add up to the ledger it found, in either driver |
| Sessions.TeardownNeverRepeats | src/async_file_system_contract_suite/support.rs:112-154 | over every history, after one teardown success the fixture is never torn down again |
| Sessions.AttemptedIsNotTornDown | src/async_file_system_contract_suite/support.rs:112-154 | an attempt whose teardown failed is counted, and leaves the fixture to be torn down again |
| Suites.ContractSuite.constructor | src/file_system_contract_suite.rs:116-122 | a new suite is the fresh session |
| Suites.ContractSuite.RegisterSelection | src/file_system_contract_suite.rs:189-199 | the whole selection, or the focused check alone under its own label, is registered before any phase runs |
| Suites.ContractSuite.Perform | src/file_system_contract_suite.rs:252-278 | the effects of a phase reach the run and the ledger in order |
| Suites.ContractSuite.DispatchAll | src/file_system_contract_suite.rs:200-219 | phases run in order; the first failure or panic is kept and stops the run |
| Suites.ContractSuite.TearDown | src/file_system_contract_suite/support.rs:138-174 | teardown is called unless it already succeeded, and the attempt is closed on the failures it added |
| Suites.ContractSuite.FinishCapture | src/file_system_contract_suite/support.rs:132-174 | the blocking finish is one attempt of the session automaton |
| Suites.ContractSuite.FinishCaptureAsync | src/async_file_system_contract_suite/support.rs:112-154 | the awaiting finish is one attempt of the session automaton, dropped anywhere |
| Suites.ContractSuite.RunSelected | src/file_system_contract_suite.rs:177-228 | the blocking session is one run of the automaton and always returns |
| Suites.ContractSuite.RunSelectedAsync | src/async_file_system_contract_suite.rs:201-254 | the awaiting session is one run of the automaton, dropped in a phase, in cleanup or in teardown |
| Suites.ContractSuite.Seed | src/file_system_contract_suite/support.rs:114-124 | the fixture is asked under the generated name; the path it published is tracked, and a refusal or an error changes nothing |
| Verdicts.VerdictOfHistory | src/contract_run.rs:128-130 | over every history the verdict holds if and only if exactly one run was started and returned, no phase failed, panicked or noted a failure, no cleanup complaint was ever made, the latest attempt succeeded, and the report meets the policy |
| Verdicts.StrictestVerdictOfHistory | src/contract_run.rs:101-141 | over every history all applicable checks are verified if and only if the default verdict holds and nothing was skipped, and the run counts as interrupted if and only if one was started and did not return |
| RunVerdicts.ReportIsTold | src/file_system_contract_suite.rs:189-219 | the report of a run is the history of its registrations, its phases' completions, and the failure or panic that ended it |
| RunVerdicts.RunFailuresExactly | src/file_system_contract_suite.rs:200-226 | the failures of a run are those its phases noted or ended with, in order, and one more exactly when its cleanup returned without success |
| RunVerdicts.RunSatisfiedIff | src/contract_run.rs:128-130 | a run meets a policy if and only if every phase was dispatched, returned and noted nothing, cleanup succeeded, and its registrations and completions are orderly and complete |
| RunVerdicts.FocusedRunSatisfiedIff | src/file_system_contract_suite.rs:169-171 | a focused run meets a policy if and only if its check was completed once with sufficient evidence, nothing else was, it returned and noted nothing, cleanup succeeded, and the policy asks for no other check |
| RunVerdicts.FocusedPanicIsFailed | src/file_system_contract_suite.rs:211-218 | a focused check that panics is recorded as failed, the panic is kept under its name, and no policy is met |
| RunVerdicts.FailureIsRecorded | src/contract_context.rs:187-198 | a failure attributed to a pending check completes it as failed with its own message |
| RunVerdicts.StoppedRunIsUnsatisfied | src/file_system_contract_suite.rs:200-219 | a run with a phase that failed, panicked or was dropped meets no policy |
| Verdicts.FinishReflects | src/contract_run.rs:180-182 | the stored cleanup flags reflect what happened in the attempt |
| Verdicts.EvidenceIsIrreversible | src/file_system_contract_suite.rs:182-187 | after a started run the report and the completion flag are frozen and failures only accumulate |
| Verdicts.DamageIsForever | src/contract_run.rs:178-182 | once a failure, a cleanup failure, an interrupted run, or a report no policy accepts exists, before, during or after the run, no continuation satisfies any policy |
| Verdicts.OnlyDroppedCleanupIsRepairable | src/contract_run.rs:180-182 | some continuation satisfies a policy if and only if the run returned with sufficient evidence and no failure of any kind |
| Verdicts.RepairableShortfall | src/async_file_system_contract_suite/support.rs:112-154 | over every history, a session that only its cleanup keeps from being satisfied is unsatisfied if and only if its latest attempt was dropped |
| Custody.NothingTrackedIsLost | src/contract_context.rs:142-152 | over every history of runs, dropped runs, retries and seeds, a path tracked at any time is in the ledger at the end, or some attempt of the history was told that it is missing |
| Custody.TrackedUnderItsOwner | src/contract_context.rs:142-152 | a phase or a seed tracks a new path at the end of the ledger, under its owner, with the next index, and changes nothing else |
| Frontier.RegistrationIsClean | src/file_system_contract_suite.rs:194-198 | registering distinct phases registers each of their checks once, all pending, without a violation |
| Frontier.LaterPhasesAreNotDispatched | src/file_system_contract_suite.rs:200-219 | after a phase failed or panicked, later phases make no difference |
| Frontier.EarlyStopKeepsFrontier | src/file_system_contract_suite.rs:188-227 | after an early stop every check of a later phase is still listed as not run and pending, nothing was registered twice, cleanup was attempted once, the run was accepted and is completed unless cleanup or teardown was dropped, and no policy is satisfied |
| Probes.WatchedTraceIsDisciplined | src/async_file_system_contract_suite/write_cancellation.rs:84-130 | the gate never opens while an execution is alive nor twice; the probe is asked only right after a poll that left execution pending, and no second poll comes before that unless the gate is open; nothing but the drop follows a poll that was over |
| Probes.GateOpensExactlyOnce | src/internal/probe_disarm_guard.rs:59-79 | a trace that ends disarmed opened the gate exactly once |
| Probes.AcknowledgedWhilePending | src/async_file_system_contract_suite/copy_cancellation.rs:123-139 | the stage is accepted exactly in a round that found the execution pending, after rounds that decided nothing |
| Probes.FirstDecisionCounts | src/async_file_system_contract_suite/copy_cancellation.rs:123-139 | the first round that decides anything decides, each ending in its own way |
| ProbeOutcomes.WritePassesIff | src/async_file_system_contract_suite/write_cancellation.rs:84-275 | a write probe passes if and only if the provider holds the write at its stage and, past the open stage, the writer's abort returns, the writer is in the state the outcome names, and the target agrees with it |
| ProbeOutcomes.TargetDecidesWrite | src/async_file_system_contract_suite/write_cancellation.rs:249-270 | against an honest provider the target alone decides: unchanged after NotPublished, present after Published, anything after Indeterminate |
| ProbeOutcomes.WriteInterruptedIff | src/async_file_system_contract_suite/write_cancellation.rs:84-258 | a write probe fails to return if and only if something it awaits is dropped or panics, named in the order it gets there |
| ProbeOutcomes.CopyPassesIff | src/async_file_system_contract_suite/copy_cancellation.rs:98-293 | a copy probe passes if and only if the provider holds the copy, the source is unchanged, and, at the stages with a writer, its abort, state and target agree |
| ProbeOutcomes.TargetDecidesCopy | src/async_file_system_contract_suite/copy_cancellation.rs:260-283 | against an honest provider the target alone decides a copy probe in the same way |
| ProbeOutcomes.CopyInterruptedIff | src/async_file_system_contract_suite/copy_cancellation.rs:98-290 | a copy probe fails to return if and only if something it awaits is dropped or panics |
| Probes.ProbeRun.Disarm | src/internal/probe_disarm_guard.rs:59-79 | disarming is attempted at most once and keeps its error or panic |
| Probes.ProbeRun.Unwind | src/async_file_system_contract_suite/write_cancellation.rs:84-86 | leaving scope stops a live execution before the gate is released |
| Probes.ProbeRun.AwaitStage | src/async_file_system_contract_suite/write_cancellation.rs:110-127 | polling decides as the rounds do, and never polls or asks out of turn |
| Probes.ProbeRun.CancelAtStage | src/async_file_system_contract_suite/write_cancellation.rs:104-150 | an execution is dropped before the gate is released, on every exit; an exit after polling returns the operation as the provider left it, and the exit before polling drops it with whatever session it holds |
| Probes.ProbeRun.AbortTaken | src/async_file_system_contract_suite/write_cancellation.rs:225-248 | a taken writer is aborted once, with no execution alive and the gate released; a returned result hands the session back if and only if its abort did not return |
| Probes.ProbeRun.RecoverWrite | src/async_file_system_contract_suite/write_cancellation.rs:218-275 | the retained session is either handed back or aborted, never both, and a rejected one is always handed back; recovery passes exactly on a clean abort consistent with the observed target |
| Probes.ProbeRun.RepeatWrite | src/async_file_system_contract_suite/write_cancellation.rs:186-212 | unless a cancelled write refuses to run again with the same facts, the whole operation is returned |
| Probes.ProbeRun.JudgeWrite | src/async_file_system_contract_suite/write_cancellation.rs:152-213 | a failure before recovery returns the operation as the last execution left it; afterwards its session is handed back unless its abort returned; when it passes and when it is interrupted is characterised |
| Probes.ProbeRun.RunWriteProbe | src/async_file_system_contract_suite/write_cancellation.rs:76-215 | on every exit the gate has been released once and after the execution; once an execution was polled a returned result holds the operation as last left, or its session unless that session's abort returned; a session is lost if and only if an unpolled execution changed the operation and left one; a passed probe saw the target and the writer as the abort's outcome says |
| Probes.ProbeRun.RepeatCopy | src/async_file_system_contract_suite/copy_cancellation.rs:178-221 | unless a cancelled copy refuses twice with the same bounded facts, the operation is returned as the last repeat made left it |
| Probes.ProbeRun.RecoverCopy | src/async_file_system_contract_suite/copy_cancellation.rs:236-290 | the retained session is either handed back or aborted, never both; recovery passes exactly on a clean abort, a consistent target and an unchanged source |
| Probes.ProbeRun.JudgeCopy | src/async_file_system_contract_suite/copy_cancellation.rs:152-290 | a failure before recovery returns the operation as the last execution left it; afterwards its session is handed back unless its abort returned |
| Probes.ProbeRun.RunCopyProbe | src/async_file_system_contract_suite/copy_cancellation.rs:89-294 | the copy probe keeps the same gate obligations; once an execution was polled no returned result loses a session, and one is lost if and only if an unpolled execution left one; a passed probe saw source, target and writer as the abort's outcome says |
| Probes.LoseSession | src/async_file_system_contract_suite/write_cancellation.rs:101-106 | there is a provider against which the write probe returns and its writer is neither handed back nor aborted |
| Listings.SortedEquality | src/file_system_contract_suite/list.rs:209-215 | comparing sorted listings is comparing them as multisets |
| Listings.CompareStream | src/file_system_contract_suite/list.rs:190-215 | for every stream, endless ones included, at most one entry more than expected is requested, and the check passes if and only if the stream ends having produced exactly the expected entries |
| Listings.PrepareAll | src/file_system_contract_suite/list.rs:126-177 | whatever was prepared is tracked, on every exit, and the expected entries are the chosen ones |
| Listings.CheckListItem | src/file_system_contract_suite/list.rs:61-219 | a listing check passes exactly when everything was prepared and the listing is exact, and requests at most one entry more than expected; an unsupported request must be rejected with its full context |
| Listings.HonestListingIff | src/file_system_contract_suite/list.rs:178-215 | against a provider that honours the requested maximum, a check passes if and only if what the provider shows under the filter of its kind is what was expected, surplus entries included |
| Listings.PreparedByKind | src/file_system_contract_suite/list.rs:126-177 | each filtered check prepares its expected entries and one decoy that the filter has to keep out |
| Listings.ProperRejectionExactly | src/file_system_contract_suite/list.rs:97-125 | a rejection counts exactly with the kind, operation, root and capability of the request, and no other provider |
| Listings.PrepareFlat | src/file_system_contract_suite/namespace.rs:81-133 | preparation goes on exactly when every file was prepared and the snapshot covers them; it is unverified exactly when the fixture lacks the means |
| Listings.CheckFlatScopeItem | src/file_system_contract_suite/namespace.rs:40-161 | a flat listing passes exactly when the snapshot covers the prepared files and the listing equals it, and requests at most one entry more than expected |
| Listings.HonestFlatListingIff | src/file_system_contract_suite/namespace.rs:134-157 | the same for a flat listing |
| Listings.FlatExpectedExactly | src/file_system_contract_suite/namespace.rs:81-133 | a flat check expects its three prefixed files, or the whole snapshot of the namespace |
| WriteLimits.BoundedSuccessor | src/internal/limit_probe_plan.rs:33-41 | a boundary within the budget has a successor within the budget, and it never overflows |
| WriteLimits.FiniteProbe | src/internal/limit_probe_plan.rs:46-51 | only finite limits below the budget are probed |
| WriteLimits.BoundedPayload | src/internal/limit_probe_plan.rs:17-25 | the payload is the longest prefix that the declared maximum admits |
| WriteLimits.FinishExpectedWriteFailure | src/internal/finish_expected_write_failure.rs:26-75 | an expected rejection is accepted exactly when no session is left or its one abort confirmed non-publication; otherwise the failure is kept whole |
| WriteLimits.Probe | src/file_system_contract_suite/write_limit.rs:53-127 | one round holds exactly on the evidence it is for, tracks its destination, and otherwise reports why, keeping a rejected write with its session |
| WriteLimits.BoundaryHoldsIff | src/file_system_contract_suite/write_limit.rs:110-128 | a boundary round needs acceptance, a matching count if one is given, and the same bytes read back |
| WriteLimits.SuccessorRejectedIff | src/file_system_contract_suite/write_limit.rs:95-109 | a successor round needs a rejection for the limit, on the path, from the provider, without a session or with one whose abort confirmed non-publication |
| WriteLimits.ExecuteWriteLimit | src/file_system_contract_suite/write_limit.rs:45-131 | the check passes exactly when the boundary holds and its successor is rejected, tracks what either round wrote, and otherwise reports the round that did not hold; both payloads fit the budget; other limits are skipped with a reason |
| WriteLimits.HonestProbeIsExact | src/file_system_contract_suite/write_limit.rs:45-131 | against an honest provider both rounds hold if and only if the declared maximum is the true one |
| WriteLimits.CheckWriteLimit | src/file_system_contract_suite/write_limit.rs:36-42 | against an honest provider, whatever its true limit, the check passes exactly when that limit is declared and within the budget, and is skipped exactly when the declaration cannot be probed |
| Ownership.ExpectedWriteCleanupGuard.Finish | src/internal/expected_write_cleanup_guard.rs:49-51 | finishing hands the failure to the caller; guard, list and caller keep exactly one holder |
| Ownership.ExpectedWriteCleanupGuard.Drop | src/internal/expected_write_cleanup_guard.rs:54-67 | dropping an unfinished guard hands the failure to the list under its check; there is still exactly one holder |
| Ownership.FinishExpectedAsyncWriteFailure | src/internal/finish_expected_write_failure.rs:82-136 | however the awaited cleanup ends, the failure is with the caller, in the list under its check, or gone after a settlement that left no session without a returned abort, and in one place only |
| Ownership.OneOwner | src/internal/expected_write_cleanup_guard.rs:27-67 | at every moment of every life of a guard exactly one of guard, list and caller holds the failure, and once it has left the guard nothing moves it |
| Ownership.ServeRejections | src/internal/finish_expected_write_failure.rs:82-136 | over the expected rejections of a session every one before the last is settled or with its caller, and the list gains at most the last, when its cleanup was abandoned |
| Ownership.FirstTakeWins | src/contract_source.rs:87-102 | under every interleaving a call sees the source if and only if no earlier call took it |
| Ownership.AtMostOneTaker | src/contract_source.rs:100-102 | at most one taker obtains the source |
| Ownership.ContractSource.Serve | src/contract_source.rs:87-102 | serving any sequence of locked calls on the source answers each with what it should see, and leaves the source empty exactly once some call took it |

## Left out

- The bodies of the individual checks (read, write, copy, rename, temp, delete and so on): scripts over an external library; a dispatched phase is an arbitrary list of effects.
- Exactly-once completion for the synchronous temporary-file checks: it does not hold, because `src/file_system_contract_suite/temp_file_check.rs:485-493` completes a check that `src/file_system_contract_suite/temp.rs:94-111` completes again; such a run logs a violation and is never satisfied (`Histories.SecondCompletionIsLogged`, `Reports.DoomIsForever`).
- The capability and preparation steps in front of the two cancellation probes, and recording their paths: plain branching before the guarded part.
- The two observations inside the copy probe's `observe_file` are one observation that may be interrupted.
- The separate drivers for asynchronous listing and write limits: the same loops with awaits between the calls.
- Probes.ProbeRun.RunWriteProbe: a panic inside `accepted_bytes` is not modelled, because it happens after the gate is released and returns nothing.
- Contexts.ContractContext.RelativeName: label texts other than the digit-free labels of the catalog are not claimed to be collision free.
- Error texts, `Display`, error source chains, mutex poisoning, the fixture traits and their default hooks, registration macros, and the table of check names.
