# Verified models of MageLift's stateful cores

This project models the parts of MageLift whose correctness depends on whole runs rather than on single calls, and
proves what those runs guarantee. `dafny verify dfyconfig.toml` checks everything. Nothing was executed.

- **Cleanup reconciler** (`CleanupTexts`, `CleanupLedger`, `CleanupMerge`, `CleanupSafety`, `CleanupSettle`,
  `CleanupDetails`, `CleanupRestart`, `CleanupOrder`, `CleanupDue`, `CleanupForeign`, `CleanupConvergence`,
  `CleanupExposure`, `CleanupClasses`, `CleanupReport`, `CleanupFields`, `CleanupWitness`, `CleanupReconciler`): a
  durable ledger is merged with a live inventory and driven entry by entry, with a save around every deletion. The disk
  and the provider answer as arbitrary functions of everything done so far; a pass may be cut after any effect and
  followed by any number of others. The loops of the source are methods in `CleanupReconciler` that refine the pass
  function, effects included.
- **Recovery plans** (`DependencyGraph`, `RecoveryPlan`, `RecoveryOrder`, `RecoveryStageIDs`, `RecoveryContents`,
  `RecoveryChoice`, `RecoveryAcceptance`, `RecoveryFields`, `RecoveryCompiler`, `RecoveryExample`, `RecoveryExecution`,
  `RecoveryEvidence`, `RecoveryWitness`): the compiler, the plan validator with its three-colour search, and the stage
  executor. The compiler and validator loops are methods in `RecoveryCompiler`, proved equal to the declarative
  `Compile` and `ValidPlan`. Runs are sequences of executor calls with arbitrary provider answers.
- **Bounded waits** (`Polling`, `PollingOutcomes`): operations, edge cleanup and deletion, against an arbitrary trace of
  answers, context states and sleeps.
- **Single-flight admission cache** (`AdmissionScope`, `AdmissionCache`, `AdmissionOutcomes`): callers with program
  counters; each critical section, each token taken or given back, and each cancellation is one step. The mutable
  object's methods refine the steps' shared state.
- **Build-once artifact registry** (`ArtifactRegistry`, `ArtifactProgress`): processes that share owner strings, fail,
  die, or see a call fail before or after it took effect.
- **Preview ownership guard** (`PreviewOwnership`, `PreviewFields`): the generation-numbered owner record under
  serialised guard calls.
- **Weighted load** (`WeightedSchedule`, `LoadRun`, `LoadReport`): the 64-bit ticket counter, the workers, and the
  report.
- **Coverage transitions** (`CoverageTransition`, `CoverageFields`): the cold/warm admission check.
- **Deployment configuration** (`DeploymentConfig`, `DeploymentLeaves`): resolving placeholders and merging an override,
  on PHP's ordered arrays.

`Optional`, `Text`, `Patterns`, `PatternGrammars` and `Ordering` (in `Text.dfy`) hold what several components share. The
modules named after fields, reports, outcomes, leaves and contents state what the small decisions amount to without naming
them: in literals, record fields and grammars.

## Where the code does less than it promises

Each of these is proved by a concrete input, beside the exact condition under which the promise holds.

- The inventory validator is weaker than the ledger validator, so an accepted inventory can leave a ledger that a
  restart rejects (`AcceptedInventoryCanInvalidateLedger`, condition in `MergedLedgerValidIff`).
- An entry without an identity can name somebody else's resource: when an unowned resource has the kind and name of an
  owned one that another entry holds by identity, the lookup may return the owned one and the deletion, by kind and name,
  reaches the other (`UnboundEntryCanNameForeign`; conditions in `DeletesOnlyOwnedIff` and, on the inventory alone, in
  `InventoryEndangersIff`).
- A provider error text that names a token is stored in the ledger and makes it unreadable to the next pass
  (`RejectionMessageCanStrandLedger`, condition in `SavedLedgerRestarts`).
- A deletion that succeeds can do the same: the text that records it completes a secret word when the entry's kind,
  role, name and identity together end in "passwor", letter case aside. The pass reports `complete` and the next one is
  refused (`SuccessfulDeletionCanStrandLedger`, conditions in `SavedLedgerRestarts`, `ReportedLedgerRestarts` and
  `SecondPassIdlesIff`). No other text the reconciler writes can (`WrittenSensitiveIff`).
- A `:` inside a resource kind makes the name lookup return another kind's resource (`ColonInKindConfusesLookup`).
  Lookups over a set of kinds are right if and only if no kind is another one followed by `:` and more text
  (`LookupRightIff`).
- When an unbound entry's name equals an observed identity, a refused entry can hide behind a finished one and the
  report says `complete` (`CompleteDespiteRefused`). A complete report leaves every entry finished if and only if no
  refused entry of the merged ledger comes after another with its key (`CompleteMeansClean`).
- An artifact claim whose process died is never cleared, and no later call for that fingerprint succeeds
  (`RunCanOrphan`; exactly which steps orphan a claim is `OrphanArisesIff`).
- Class names that differ only in which of `.` and `-` joins their words share a stage suffix (`SuffixesCanMeet`,
  `SuffixesMeetIff`), so their stage IDs collide (`DraftIDsDistinctIff` says exactly when) and no request with both
  compiles (`SharedSuffixIsRefused`).
- The request-weight check adds in 64 bits and can wrap (`WeightSumCanWrap`, condition in `AcceptedTotalBoundedIff`).
- A NUL inside a string, or an empty map value, makes different coverage boundaries compare equal
  (`SeparatorConfusesLists`, `EmptyValueHidesMissingKey`; conditions in `SameStringsIff` and `SameStringMapIff`);
  validated boundaries contain neither.
- The Runner's second guard call is not always a no-op: an update requested with the destroy flag set passes the first
  guard in destroy mode and writes in the second (`UpdateWithDestroyFlagWritesLate`, condition in `SecondGuardIsQuiet`).
- A second start need not export what the first one did: a variable whose value is itself a placeholder is resolved one
  level further (`NestedPlaceholderDrifts`, condition in `RestartExportsSameIff`).

## Model

| member | source | states |
|---|---|---|
| CleanupMerge.MergeProvenance | sdk/cleanup_ledger.go:444-501 | every merged entry is an old one unchanged, or one owned observation bound to the old entry it matches or appended as new |
| CleanupMerge.MergeHoldsEachOwnedIdentityOnce | sdk/cleanup_ledger.go:444-501 | after a merge each owned observation's identity is held by exactly one entry |
| CleanupMerge.MergeNeverAdoptsUnowned | sdk/cleanup_ledger.go:444-460 | an identity only an unowned observation carries enters no entry |
| CleanupMerge.UnboundIff | sdk/cleanup_ledger.go:444-501 | an unbound entry stays unbound if and only if every owned observation of its kind and name belongs to another entry by identity |
| CleanupMerge.MergedLedgerValidIff | sdk/cleanup_ledger.go:142-188 | under the well-formedness hypotheses the merged ledger passes the validator if and only if, for each owned observation, the entry it is bound to or adopted as passes by itself; which entry that is depends on the ledger and the inventory alone, and keys never clash |
| CleanupFields.WrittenFields | sdk/cleanup_ledger.go:444-487 | in fields, what the merged ledger holds for each owned observation |
| CleanupFields.SensitiveIff | sdk/validation.go:15 | a text names a secret if and only if one of the pattern's words stands in it, in any mixture of cases, the two folding code points included |
| CleanupFields.LedgerMeans | sdk/cleanup_ledger.go:142-188 | the ledger validator in fields |
| CleanupFields.InventoryMeans | sdk/cleanup_ledger.go:418-442 | the inventory validator in fields |
| CleanupMerge.AcceptedInventoryCanInvalidateLedger | sdk/cleanup_ledger.go:418-442 | a concrete accepted inventory whose merge the ledger validator rejects |
| CleanupSafety.SweepSafe | sdk/cleanup_ledger.go:243-327 | every deletion of a pass is licensed by an owned, live, unprotected, undelayed observation of this pass, and with saving configured the save just before it succeeded and marks that entry deleting |
| CleanupSafety.RunDeletesAhead | sdk/cleanup_ledger.go:243-327 | the same at every deletion of every sequence of passes and interruptions, against what the disk then holds |
| CleanupDue.SweepDue | sdk/cleanup_ledger.go:226-328 | whatever the keys, a pass calls Delete only for entries that come first under their key and are open with an owned, live, unprotected, undelayed observation, and an error-free pass for each of them |
| CleanupForeign.DeletesOnlyOwnedIff | sdk/cleanup_ledger.go:243-327 | a Delete call names, by identity or by kind and name, an observed unowned resource only if the ledger and inventory expose one, whatever fails; in an error-free pass that is no dry run, if and only if they do: an open unbound entry shares kind and name with it, its lookup is deletable, and every owned namesake belongs to another entry by identity |
| CleanupForeign.RunDeletesOnlyOwned | sdk/cleanup_ledger.go:243-327 | the same over every sequence of passes and interruptions, against the ledger then on disk |
| CleanupExposure.InventoryEndangersIff | sdk/cleanup_ledger.go:243-327 | for an inventory with colon-free kinds, some accepted ledger makes a working pass name an unowned resource if and only if the last observation of that resource's kind and name is owned and deletable, and its kind, name and owned namesakes' identities can stand in a ledger |
| CleanupWitness.UnboundEntryCanNameForeign | sdk/cleanup_ledger.go:503-524 | a concrete accepted ledger and inventory whose pass, after deleting the owned resource, calls Delete by kind and name when only the unowned namesake is left |
| CleanupSafety.SweepChronicle | sdk/cleanup_ledger.go:243-327 | the saved ledgers of a pass form a chain that only moves forward |
| CleanupSafety.RunEvolves | sdk/cleanup_ledger.go:193-380 | over any sequence of passes and interruptions entries are only appended, bound fields stay, and gone, refused and tombstone are final |
| CleanupSafety.LookupBound | sdk/cleanup_ledger.go:503-524 | a bound entry is found exactly by its identity |
| CleanupSafety.LookupUnbound | sdk/cleanup_ledger.go:503-524 | an unbound entry is found exactly by its kind and name while no observed kind clashes with its own, that is, while neither is the other followed by `:` and more |
| CleanupSafety.LookupRightIff | sdk/cleanup_ledger.go:503-524 | over a set of kinds every lookup of every unbound entry is right if and only if no two of the kinds clash |
| CleanupSafety.ColonInKindConfusesLookup | sdk/cleanup_ledger.go:503-524 | with `:` in a kind the lookup returns an observation of another kind and name |
| CleanupSettle.SweepSettles | sdk/cleanup_ledger.go:243-327 | an uninterrupted pass gives every merged entry the fate its status and observation dictate, and makes exactly the planned deletions |
| CleanupSettle.VerdictIff | sdk/cleanup_ledger.go:330-379 | a report is complete if and only if nothing is refused, pending or unfinished and the final inventory holds no owned live or delayed resource, dry run or not |
| CleanupSettle.CompleteMeansClean | sdk/cleanup_ledger.go:330-379 | complete means the final inventory is quiet, and every entry is gone or intended if and only if no refused entry of the merged ledger follows one with the same key |
| CleanupSettle.CompleteDespiteRefused | sdk/cleanup_ledger.go:526-544 | without distinct keys a refused entry can coexist with a complete report |
| CleanupReport.PassReports | sdk/cleanup_ledger.go:243-327 | in fields: how each entry of an error-free pass over distinct keys ends, status and text, and that the deleted, gone, refused and pending lists name in rank order exactly the entries their observations put there |
| CleanupReport.OutcomeMeans | sdk/cleanup_ledger.go:193-380 | why a pass is aborted, in the order of the checks, and when it reports |
| CleanupReport.ReportPassesOn | sdk/cleanup_ledger.go:358-359 | a report passes the lists on and keeps exactly the entries that are not gone |
| CleanupReport.PendingListMeans | sdk/cleanup_ledger.go:350-376 | a pending report waits exactly for what the pass found pending, unsettled entries, and owned resources still live (dry run) or delayed |
| CleanupReport.PendingListSorted | sdk/cleanup_ledger.go:350-376 | it lists each key once, in order |
| CleanupReport.FailedIff | sdk/cleanup_ledger.go:350-376 | a report fails if and only if something was refused or, outside a dry run, an owned resource is still live |
| CleanupDetails.WrittenSensitiveIff | sdk/cleanup_ledger.go:411-414 | after fields that name no secret, one of the reconciler's texts completes a secret word if and only if the fields end in "passwor" and the text records a deletion |
| CleanupRestart.SavedLedgerRestarts | sdk/cleanup_ledger.go:262-327 | from a valid merged ledger, a saved ledger passes the validator if and only if no entry deleted so far ends, before its detail, in "passwor", and, where a rejection is recorded, the provider's message has several lines, is empty, or is not blank and names no secret after that entry's fields |
| CleanupRestart.ReportedLedgerRestarts | sdk/cleanup_ledger.go:318-327 | the ledger of an error-free pass is accepted by the next one if and only if no deleted entry ends, before its detail, in "passwor" |
| CleanupWitness.RejectionMessageCanStrandLedger | sdk/cleanup_ledger.go:308-320 | a concrete pass whose rejected deletion, with a message that names a token, leaves a ledger on disk that every later pass refuses |
| CleanupOrder.DeletionsAscend | sdk/cleanup_ledger.go:226-328 | whatever saves or deletions fail, a pass over distinct keys makes its Delete calls, failed ones included, in nondecreasing rank, and within a rank in the order of their keys |
| CleanupClasses.TeardownOrder | sdk/cleanup_ledger.go:119-139 | among entries the ledger gave no rank, such a pass calls Delete on every snapshot before any restore output, on those before any source, and on sources before everything else; the role decides before the kind |
| CleanupClasses.FreshTeardownOrder | sdk/cleanup_ledger.go:119-139 | from an empty ledger every two Delete calls of a pass obey that order |
| CleanupConvergence.OwnedAreDeleted | sdk/cleanup_ledger.go:243-327 | under the convergence hypotheses an error-free pass deletes every owned observation by its identity |
| CleanupConvergence.FirstPassCompletes | sdk/cleanup_ledger.go:193-380 | under the convergence hypotheses a pass reports complete if and only if none of its saves and deletions fails |
| CleanupConvergence.SecondPassIdlesIff | sdk/cleanup_ledger.go:193-380 | after such a pass any next one, with other services and options, deletes nothing; it reports complete with the same ledger if and only if its first save works and no deleted entry ends, before its detail, in "passwor", and if one does it refuses the ledger |
| CleanupWitness.SuccessfulDeletionCanStrandLedger | sdk/cleanup_ledger.go:318-327 | a concrete owned resource whose successful deletion is reported complete and leaves a ledger every later pass refuses |
| CleanupReconciler.CleanupInventoryMatch | sdk/cleanup_ledger.go:489-501 | the two-round search returns the entry the match function names |
| CleanupReconciler.MergeCleanupInventory | sdk/cleanup_ledger.go:444-487 | the merge loop computes the merge function |
| CleanupReconciler.IndexCleanupInventory | sdk/cleanup_ledger.go:503-512 | the index loop computes the last-wins index |
| CleanupReconciler.DriveEntries | sdk/cleanup_ledger.go:226-328 | the deletion loop refines the pass function, with the same effects in the same order |
| CleanupReconciler.JudgePass | sdk/cleanup_ledger.go:330-379 | the verdict loops compute the report function |
| CleanupReconciler.ReconcileCleanup | sdk/cleanup_ledger.go:193-380 | one call refines the pass function: same result, same saves and deletions, for arbitrary services |
| DependencyGraph.CycleDetector.Visit | sdk/resilience.go:524-543 | terminates; a reported ID lies on a cycle, otherwise the ID and all it needs are finished in schedule order |
| DependencyGraph.FindCycle | sdk/resilience.go:517-555 | reports nothing if and only if the dependencies among known IDs have no cycle |
| DependencyGraph.FindCycleAnyOrder | sdk/validation.go:232-261 | the same when the map is walked in any order |
| RecoveryCompiler.CompileResiliencePlan | sdk/resilience_plan.go:16-174 | the compiler's statements return exactly the plan `Compile` defines, or an error |
| RecoveryCompiler.ValidateResiliencePlan | sdk/resilience.go:331-428 | the validator's loops accept if and only if the plan is valid, including acyclicity |
| RecoveryCompiler.BindAdmissionReferences | sdk/resilience_plan.go:179-195 | fails if and only if a key names no stage; otherwise each reference is on the first stage of its ID and nothing else changes |
| RecoveryCompiler.CommonRecoveryDestination | sdk/resilience_plan.go:215-236 | the nested search returns the function's choice |
| RecoveryCompiler.UniqueResilienceStrings | sdk/resilience_plan.go:290-305 | the seen-set loop computes the unique sorted list |
| RecoveryOrder.EmittedOrdered | sdk/resilience_plan.go:63-164 | every dependency of every emitted stage names a strictly earlier stage |
| RecoveryOrder.CompiledIsOrdered | sdk/resilience_plan.go:63-173 | a compiled plan's stage IDs are distinct and its list order is a valid schedule |
| RecoveryStageIDs.DraftGraphSound | sdk/resilience.go:403-423 | the unknown-dependency, self-dependency and cycle checks pass on every draft of the compiler, repeated stage IDs or not |
| RecoveryStageIDs.DraftIDsDistinctIff | sdk/resilience_plan.go:63-164 | a draft's stage IDs are distinct if and only if no two class names share a stage suffix |
| RecoveryStageIDs.SuffixesMeetIff | sdk/resilience_plan.go:285-288 | two class names that capability rows can hold share a suffix if and only if they differ at most in which of `.` and `-` joins their words |
| RecoveryStageIDs.SuffixesCanMeet | sdk/resilience_plan.go:285-288 | two different such names with one stage suffix |
| RecoveryStageIDs.SharedSuffixIsRefused | sdk/resilience_plan.go:16-174 | a request in which two class names share a suffix never compiles |
| RecoveryOrder.ListOrderRespects | sdk/resilience_plan.go:63-164 | firing the stages of an ordered plan in list order respects every dependency |
| RecoveryOrder.OrderedIsAcyclic | sdk/resilience.go:517-555 | a plan in schedule order has no dependency cycle |
| RecoveryOrder.FenceSeparates | sdk/resilience_plan.go:77-110 | in every dependency-respecting run a fence follows all backups, and to the same region, an alternate region or an alternate provider it precedes every restore |
| RecoveryOrder.FailoverAfterEveryClass | sdk/resilience_plan.go:122-137 | failover follows every class's restore and integrity check |
| RecoveryOrder.FailbackAfterFailover | sdk/resilience_plan.go:137-156 | failback follows failover |
| RecoveryOrder.CleanupIsLast | sdk/resilience_plan.go:158-164 | every other stage of the plan has fired before cleanup |
| RecoveryOrder.ResumeRespects | sdk/resilience_plan.go:55-164 | a run interrupted anywhere and resumed still respects the plan's order |
| RecoveryOrder.CompiledRunOrder | sdk/resilience_plan.go:16-174 | all of the ordering facts for every run of every compiled plan |
| RecoveryContents.PlanContents | sdk/resilience_plan.go:16-174 | a compiled plan goes to one requested destination; it has a fence if and only if that is the same region, an alternate region or an alternate provider, a failover if and only if it is one of the last two, a failback if and only if that was approved, a restore and a check for every class, and a backup exactly for those not rebuilt |
| RecoveryContents.RebuiltMeans | sdk/resilience_plan.go:268-275 | a class is rebuilt if and only if its trimmed backup method says none, rebuild or recreate, in any case |
| RecoveryContents.RunOrder | sdk/resilience_plan.go:55-164 | by action, for any two stages of a compiled plan and any respecting run: which must have fired before which |
| RecoveryContents.RestoresAreFenced | sdk/resilience_plan.go:77-110 | no restore fires unfenced in a run of a plan to one of those three destinations |
| RecoveryAcceptance.CompilesIff | sdk/resilience_plan.go:16-174 | exactly which inputs compile: valid for one provider, single-line fixture and marker, suffixes apart, every class served by a usable row with its actions, a destination that serves all with its runtime actions declared, approvals only for stages that take one, and a reconciliation only for an approved failback; the plan validator refuses nothing else |
| RecoveryAcceptance.UnfencedNeverCompiles | sdk/resilience_plan.go:77-80 | without a declared fence no request compiles that asks only for the three fenced destinations |
| RecoveryFields.DescriptorMeans | sdk/resilience.go:216-298 | the descriptor validator in fields |
| RecoveryFields.RequestMeans | sdk/resilience.go:300-329 | the plan-request validator in fields |
| RecoveryFields.PlanMeans | sdk/resilience.go:331-428 | the plan validator in fields |
| RecoveryChoice.DestinationIsBest | sdk/resilience_plan.go:215-236 | the choice is an alternate provider if that is requested and serves every class, else an alternate region, else an isolated one, else the same region, else none |
| RecoveryChoice.RequiredProofsExact | sdk/resilience_plan.go:63-170 | the required proofs are strictly sorted and are exactly the proofs of the emitted stages |
| RecoveryChoice.CompileForgetsOrder | sdk/resilience_plan.go:27-75 | permuting data classes, destinations, capabilities, capability rows, or the actions and destinations inside a row changes neither success nor the plan |
| RecoveryExample.FailbackPlanCompiles | sdk/resilience_plan.go:16-174 | a concrete recovery with fencing, failover and an approved failback compiles, to seven stages in this order, so the statements about compiled plans are not empty |
| RecoveryExecution.ValidateEvidence | sdk/resilience_lifecycle.go:313-411 | the two evidence loops accept if and only if every record is acceptable, no class has two, and every class of the stage is shown |
| RecoveryExecution.ExecuteResilience | sdk/resilience_lifecycle.go:241-311 | the executor returns an observation exactly when the request is admitted and the settled observation passes every check |
| RecoveryEvidence.EvidenceAcceptedIff | sdk/resilience_lifecycle.go:313-411 | the evidence check in fields, both ways: what every record must say, that no class has two, and what the record of each class must prove for each action |
| RecoveryEvidence.ExecutesIff | sdk/resilience_lifecycle.go:241-311 | a call returns an answer if and only if its request is presentable for the first stage of its ID and the concluded answer is acceptable for it, in fields |
| RecoveryEvidence.SuccessGave | sdk/resilience_lifecycle.go:313-411 | a successful call gave, for each class of its stage, a sound record that proves what was done: a backup identity, a restore identity and service health, the integrity facts, health after failover |
| RecoveryEvidence.FailoverIsEarned | sdk/resilience_lifecycle.go:241-406 | in every run of a compiled plan a successful failover implies, for each class, earlier such records of a restore, an integrity check, a backup unless the class is rebuilt, and a fence with writer identity, single writer, no split brain and approval, all bound to the plan's fixture, marker and destination; its own record rejects stale origins and shows health |
| RecoveryExecution.RiskyFiringIsApproved | sdk/resilience_plan.go:92-156 | in every run of a compiled plan each fence, failover, failback and risky restore that fired was fired by a call presenting its approval, and a failback its reconciliation reference |
| RecoveryWitness.FailoverRunExists | sdk/resilience_lifecycle.go:241-311 | a concrete run of the compiled example in which all seven stages succeed, failover and failback included, so the statements about runs are not empty |
| RecoveryExecution.RiskyStagesNeedApproval | sdk/resilience_plan.go:92-156 | exactly fences, failovers, failbacks and risky restores of a compiled plan require approval |
| Polling.WaitForOperation | sdk/resilience_lifecycle.go:124-185 | the wait returns the outcome of the first stopping attempt, with its poll and sleep counts, and never reaches its trailing return |
| Polling.WaitForEdgeOperation | sdk/edge_lifecycle.go:296-355 | as the operation wait, after rejecting an operation ID that is blank or has several lines |
| Polling.CalmOperationWait | sdk/resilience_lifecycle.go:139-185 | without cancellation or timeout the first decisive answer decides an operation, after at most MaxAttempts polls and one sleep fewer; with none the attempts are exhausted |
| Polling.CalmCleanupWait | sdk/edge_lifecycle.go:252-292 | the same for an edge cleanup: the first decisive inventory decides, otherwise what remains is returned |
| Polling.CalmDeletionWait | sdk/deletion_lifecycle.go:49-95 | the same for a deletion: the first decisive poll decides, otherwise the last good observation is returned |
| Polling.DoneIsEarned | sdk/resilience_lifecycle.go:139-185 | success implies a succeeded answer with the requested identity |
| Polling.WaitForEdgeCleanup | sdk/edge_lifecycle.go:236-294 | the wait returns the outcome of the first stopping inventory poll |
| Polling.CleanIsObserved | sdk/edge_lifecycle.go:252-292 | a clean outcome is a valid inventory poll in which nothing owned is live |
| Polling.ExecuteEdge | sdk/edge_lifecycle.go:143-208 | success exactly when the request is valid and declared and the settled answer is accepted; a destroy also needs a clean inventory |
| Polling.WaitForDeletion | sdk/deletion_lifecycle.go:33-95 | the wait returns the outcome of the first stopping attempt with the last good observation |
| PollingOutcomes.DeletionWaitMeans | sdk/deletion_lifecycle.go:49-95 | a deletion wait ends at the first attempt that is cut short or whose answer is not a reason to go on, with this outcome, field by field |
| PollingOutcomes.DeletedIffEmptySeen | sdk/deletion_lifecycle.go:49-95 | deletion succeeds if and only if an attempt before any stop shows a success with no resource, delayed or protected reference left |
| PollingOutcomes.OperationWaitMeans | sdk/resilience_lifecycle.go:139-185 | the same for an operation wait |
| PollingOutcomes.CleanupWaitMeans | sdk/edge_lifecycle.go:252-292 | the same for an edge cleanup |
| PollingOutcomes.WaitCosts | sdk/resilience_lifecycle.go:139-185 | one call per attempt that began alive, one sleep per such attempt that was neither decided nor the last |
| PollingOutcomes.PolicyMeans | sdk/edge_lifecycle.go:357-362 | a policy is valid if and only if its timeout, interval and attempts are positive |
| PollingOutcomes.EdgeAnswerMeans | sdk/edge_lifecycle.go:158-203 | which answer an edge execution judges and which it accepts, in fields |
| AdmissionScope.KeyIsScope | internal/certification/admission_snapshot.go:165-185 | two inputs share a cache key if and only if they differ at most in the order of credential references and mutation keys |
| AdmissionCache.RunsConsistent | internal/certification/admission_snapshot.go:106-163 | the invariant of every reachable state: owners, waiters, delivered outcomes and tokens agree |
| AdmissionCache.SingleFlight | internal/certification/admission_snapshot.go:125-163 | at any moment one probe per key, a bounded number in all, and no key both cached and in flight |
| AdmissionCache.EntriesKept | internal/certification/admission_snapshot.go:153-162 | a cached entry is never overwritten or dropped |
| AdmissionCache.CachedIsNeverProbed | internal/certification/admission_snapshot.go:125-136 | once a key is cached no probe for it starts again |
| AdmissionCache.OneAnswerPerKey | internal/certification/admission_snapshot.go:106-163 | after one valid answer no probe for that key finishes again |
| AdmissionCache.SuccessesAgree | internal/certification/admission_snapshot.go:106-163 | all successful returns for a key equal the cached entry |
| AdmissionCache.SuccessIsSourced | internal/certification/admission_snapshot.go:106-163 | a success is a valid answer that a probe of the same scope gave in this run |
| AdmissionOutcomes.AnswerMeans | internal/certification/admission_snapshot.go:138-151 | in fields: which answers succeed, and that a cancelled one fails as cancelled and any other as a failed probe |
| AdmissionOutcomes.SuccessIsSound | internal/certification/admission_snapshot.go:239-257 | every success of a run has no secret, no negative capacity or quota, and named single-line reasons |
| AdmissionOutcomes.RefusalMeans | internal/certification/admission_snapshot.go:106-123 | what a refused or cancelled caller is told |
| AdmissionCache.CacheIsTransparent | internal/certification/admission_snapshot.go:106-163 | for a deterministic, order-insensitive probe a success equals the direct validated probe of the caller's input |
| AdmissionCache.FailureIsRetried | internal/certification/admission_snapshot.go:153-162 | after a failed flight the next caller of the key owns a new one; after a success it hits the entry |
| AdmissionCache.NeverStuck | internal/certification/admission_snapshot.go:220-237 | while a call is open, some caller can move without being cancelled |
| AdmissionCache.AdmissionSnapshot.Lookup | internal/certification/admission_snapshot.go:125-136 | the first critical section: hit, join or own, with its whole effect on the shared state |
| AdmissionCache.AdmissionSnapshot.Settle | internal/certification/admission_snapshot.go:153-162 | the second critical section: unregister, publish the outcome, cache a success |
| AdmissionCache.AdmissionSnapshot.ProbeAlone | internal/certification/admission_snapshot.go:106-163 | an undisturbed call returns the entry or the judged answer and leaves what its steps leave |
| ArtifactRegistry.MemoryRegistry.Claim | internal/certification/artifact_registry.go:445-471 | ready, blocked or miss, and a claim is recorded exactly on a miss |
| ArtifactRegistry.MemoryRegistry.ReleaseClaim | internal/certification/artifact_registry.go:473-491 | only the matching owner's claim is removed |
| ArtifactRegistry.MemoryRegistry.Publish | internal/certification/artifact_registry.go:493-518 | a record replaces the claim exactly when it is valid, keyed right, claimed by this owner and not in conflict |
| ArtifactRegistry.EnsureImmutableArtifact | internal/certification/artifact_registry.go:95-157 | the undisturbed call, on a mutable registry, in terms of the state before |
| ArtifactProgress.EnsuredIs | internal/certification/artifact_registry.go:95-157 | the undisturbed call on a sound registry, case by case: refused, reused, blocked, or, where the builder returns a publishable contract, stored and returned with its claim gone and every other key untouched; any other build fails and leaves the registry alone |
| ArtifactProgress.ClaimMeans | internal/certification/artifact_registry.go:445-491 | what a claim answers and what claiming and releasing change |
| ArtifactRegistry.RunsConsistent | internal/certification/artifact_registry.go:95-157 | the invariant of every reachable state, shared owners, failures and deaths included |
| ArtifactRegistry.BuildOnce | internal/certification/artifact_registry.go:95-157 | claims and records have disjoint keys and one process at most is between miss and publish or release |
| ArtifactRegistry.RecordsKept | internal/certification/artifact_registry.go:277-302 | a published record never changes or vanishes |
| ArtifactRegistry.SuccessesAgree | internal/certification/artifact_registry.go:95-151 | any two successful calls for a fingerprint return the same valid record, and one at most built it |
| ArtifactRegistry.PublicationAlwaysAccepted | internal/certification/artifact_registry.go:290-302 | a live builder's publication is never refused; the conflict branch is unreachable |
| ArtifactRegistry.SuccessIsBuilt | internal/certification/artifact_registry.go:95-151 | a success returns what some process of the run built for that fingerprint |
| ArtifactProgress.BuilderSucceeds | internal/certification/artifact_registry.go:133-151 | in every run a process whose builder returned a publishable contract and whose publication works returns success with it, stored and unclaimed |
| ArtifactProgress.FreshProcessPublishes | internal/certification/artifact_registry.go:95-151 | from every reachable state with the fingerprint neither claimed nor published, a new process left alone publishes successfully |
| ArtifactRegistry.DeathOrphans | internal/certification/artifact_registry.go:116-151 | a holder's death orphans its claim if and only if its publication had not taken effect |
| ArtifactRegistry.OrphanArisesIff | internal/certification/artifact_registry.go:95-157 | in any consistent state a step orphans a fingerprint if and only if it is a claim recorded by a call that then errs, a release that fails before its effect, or the death of the holder |
| ArtifactRegistry.OrphanIsPermanent | internal/certification/artifact_registry.go:230-255 | an orphaned claim stays, and no call for its fingerprint succeeds |
| ArtifactRegistry.RunCanOrphan | internal/certification/artifact_registry.go:95-157 | a concrete run reaches an orphan, and no continuation of it lets any call for the fingerprint succeed |
| ArtifactRegistry.StateStaysReadable | internal/certification/artifact_registry.go:332-376 | every reachable registry state passes the checks made when the file is read back |
| ArtifactRegistry.FailureLeavesNoTrace | internal/certification/artifact_registry.go:116-157 | a failed undisturbed call leaves the registry as it was |
| ArtifactRegistry.SuccessIsReused | internal/certification/artifact_registry.go:113-132 | after a success every later call, by any owner, reuses the record and writes nothing |
| PreviewOwnership.PreparePreview | internal/automation/pulumi.go:129-177 | the guard on a mutable stack returns the guard function's verdict and new stack, write faults included |
| PreviewOwnership.GuardEvolves | internal/automation/pulumi.go:129-177 | one guard call never changes the owner or lowers the generation, keeps the record at a fixed generation, writes nothing in destroy mode, and adopts no populated stack |
| PreviewOwnership.ApplyAllowedIff | internal/automation/pulumi.go:137-176 | exactly when an apply is let through; the persisted record then equals the request on all eleven fields |
| PreviewOwnership.DestroyAllowedIff | internal/automation/pulumi.go:142-165 | exactly when a destroy is let through |
| PreviewFields.MetadataMeans | internal/automation/preview_ownership.go:36-73 | the owner-record validator in fields |
| PreviewFields.RefusalMeans | internal/automation/pulumi.go:129-177 | exactly why each refusal is given |
| PreviewFields.OwnerNeverChanges | internal/automation/pulumi.go:129-177 | over any run the recorded project, repository, pull request, environment, stack key and owner stay the same |
| PreviewFields.OperationsMean | internal/automation/pulumi.go:47-120 | what each operation, destroy flag set or not, leaves on the stack |
| PreviewOwnership.SecondGuardIsQuiet | internal/automation/runner.go:114-131 | after an allowed first guard the second succeeds without writing if and only if it runs in destroy mode, the first did not, or the stack already carried the request's record |
| PreviewOwnership.UpdateWithDestroyFlagWritesLate | internal/automation/runner.go:114-131 | a concrete update with the destroy flag set whose first guard writes nothing and whose second replaces the record |
| PreviewOwnership.RunEvolves | internal/automation/pulumi.go:129-177 | over any run the six owner fields never change, the generation never falls, and a generation fixes the record |
| PreviewOwnership.OneOwnerPerStack | internal/automation/pulumi.go:47-120 | any two guarded operations of a run that reach the provider belong to one owner, in generation order |
| PreviewOwnership.StaleStaysRefused | internal/automation/pulumi.go:157-172 | once a generation is recorded, older requests are refused for ever |
| PreviewOwnership.AdoptionNeedsEmptyStack | internal/automation/pulumi.go:141-153 | a record first appears only while the stack is unrecorded and empty |
| PreviewOwnership.DestroyKeepsTag | internal/automation/pulumi.go:104-120 | a destroy never writes the ownership tag |
| PreviewOwnership.RecordStaysValid | internal/automation/preview_ownership.go:75-98 | a recorded owner always reads back as valid metadata |
| WeightedSchedule.AcceptedTotalBoundedIff | internal/benchmark/runner.go:148-160 | an accepted mix totals at most 10000 if and only if its true total fits in 64 signed bits |
| WeightedSchedule.WeightSumCanWrap | internal/benchmark/runner.go:148-160 | two maximal weights are accepted although their total is not bounded |
| LoadReport.MixMeans | internal/benchmark/runner.go:148-160 | the mix a run accepts, in fields |
| WeightedSchedule.BuildSchedule | internal/benchmark/runner.go:176-181 | the nested loops build the schedule function |
| WeightedSchedule.ScheduleWeights | internal/benchmark/runner.go:176-181 | the schedule holds each path exactly as often as its combined weight |
| WeightedSchedule.FullRound | internal/benchmark/runner.go:205 | any W consecutive slots of the cycle, from any start, dispatch each path exactly its weight |
| WeightedSchedule.TicketsAreFair | internal/benchmark/runner.go:205 | any N consecutive tickets before the counter wraps dispatch a path between floor(N/W) times its weight and that plus the smaller of its weight and N mod W |
| LoadRun.Recorder.Record | internal/benchmark/runner.go:223-234 | one answered request under the mutex, with its error class |
| LoadRun.Recorder.Serve | internal/benchmark/runner.go:205-234 | one turn of a worker draws the next ticket and records the answer, or that no request could be built |
| LoadRun.IssuedAreTickets | internal/benchmark/runner.go:192-205 | whichever workers draw them, a run's tickets are the first ones, each drawn once |
| LoadRun.RunIsFair | internal/benchmark/runner.go:192-238 | the fairness bounds for every interleaving of the workers |
| LoadRun.TicketsAccounted | internal/benchmark/runner.go:192-238 | every ticket is answered, unbuildable, or held by one worker; successes and failures add up, and error classes sum to the failures |
| LoadReport.RunCounts | internal/benchmark/runner.go:208-234 | in every run the successes are the answers with a status below 400, and the failures are counted as transport errors, unbuildable requests and one class per status from 400 on |
| LoadReport.ReportMeans | internal/benchmark/runner.go:238-266 | a report's counts, throughput and percentiles: each percentile is the sample at that share of the largest index, rounded down, in whole microseconds |
| LoadRun.PercentilesOrdered | internal/benchmark/runner.go:257-266 | the percentiles of sorted latencies are ordered and not negative |
| LoadRun.ReportsIffAllBuilt | internal/benchmark/runner.go:101-129 | a finished run yields a report if and only if every request could be built, and then samples equal successes plus failures |
| LoadRun.ReportForgetsOrder | internal/benchmark/runner.go:238-254 | the report does not depend on the order in which answers were recorded |
| CoverageTransition.JoinEqualIff | sdk/coverage.go:263-265 | joined texts of NUL-free lists are equal if and only if the lists are, but for the empty list against one empty string |
| CoverageTransition.SameStringsIff | sdk/coverage.go:263-265 | the region comparison is multiset equality under the same exception |
| CoverageTransition.SeparatorConfusesLists | sdk/coverage.go:263-265 | a NUL inside a string makes different lists compare equal |
| CoverageTransition.SameStringMapIff | sdk/coverage.go:267-277 | the one-way comparison is map equality if and only if no empty value hides a missing key |
| CoverageTransition.EmptyValueHidesMissingKey | sdk/coverage.go:267-277 | two different maps that compare equal |
| CoverageTransition.CompareMaps | sdk/coverage.go:267-277 | the loop, in any iteration order, computes the one-way comparison |
| CoverageTransition.CoverageDifferences | sdk/coverage.go:240-261 | the appended list is the list of differing dimensions in order |
| CoverageTransition.ValidateCoverageTransition | sdk/coverage.go:148-188 | the check accepts exactly the accepted transitions |
| CoverageFields.BoundaryMeans | sdk/coverage.go:59-122 | the boundary validator in fields |
| CoverageFields.DifferencesMean | sdk/coverage.go:240-261 | the differences are listed once each, in order, and each if and only if its field differs |
| CoverageTransition.AcceptedIff | sdk/coverage.go:148-188 | a transition is accepted if and only if both ends are valid and exactly the dimension its kind names changes, regions compared as multisets |
| CoverageTransition.AcceptanceSymmetric | sdk/coverage.go:148-188 | acceptance does not depend on direction |
| CoverageTransition.FingerprintIsNoChange | sdk/coverage.go:126-146 | two valid boundaries share a fingerprint if and only if the unchanged transition between them is accepted |
| CoverageTransition.ChainKeepsCold | sdk/coverage.go:148-188 | along any chain the cold dimensions stay, and a warm one moves only if some step names it |
| DeploymentConfig.ParseNameAndDefault | images/php-nginx/deployment-config.php:53-64 | writing a placeholder with a default and parsing it gives back both |
| DeploymentConfig.ParseName | images/php-nginx/deployment-config.php:53-64 | writing a placeholder and parsing it gives back its name |
| DeploymentLeaves.ParsesIff | images/php-nginx/deployment-config.php:53-56 | the placeholder pattern exactly: white space around the name and before the default, at most one newline at the end |
| DeploymentLeaves.ResolvesIff | images/php-nginx/deployment-config.php:49-64 | resolving a text gives the variable it names if that is set, else its default, else nothing, and any other text itself |
| DeploymentLeaves.VariableWins | images/php-nginx/deployment-config.php:59-64 | for a written placeholder, with and without a default |
| DeploymentConfig.ResolveDeploymentConfig | images/php-nginx/deployment-config.php:41-65 | the in-place loop over a copied array computes the resolved tree, key order kept |
| DeploymentConfig.MergeDeploymentConfig | images/php-nginx/deployment-config.php:67-78 | the loop computes the merge function |
| DeploymentConfig.ResolveDistributes | images/php-nginx/deployment-config.php:41-78 | resolving both trees and merging equals merging and resolving, key order included |
| DeploymentConfig.MergedKeys | images/php-nginx/deployment-config.php:67-78 | the merged keys are the base's in place, then the overlay's new ones |
| DeploymentConfig.MergedAt | images/php-nginx/deployment-config.php:67-78 | key by key a merge is the base's value overlaid by the overlay's |
| DeploymentConfig.MergedLeaves | images/php-nginx/deployment-config.php:67-78 | at every path the merged leaf is the overlay's, or the base's where the overlay has nothing at or above the path |
| DeploymentConfig.MergeSelf | images/php-nginx/deployment-config.php:67-78 | merging a tree with itself changes nothing |
| DeploymentConfig.MergeAbsorbs | images/php-nginx/deployment-config.php:67-78 | merging the exported tree into its base again adds nothing |
| DeploymentConfig.RestartExportsSameIff | images/php-nginx/deployment-config.php:8-39 | a second start on the exported override exports the same tree if and only if no text of that tree is a placeholder for another text |
| DeploymentConfig.NestedPlaceholderDrifts | images/php-nginx/deployment-config.php:8-65 | a concrete configuration and environment whose second start exports something else |
| DeploymentConfig.Startup | images/php-nginx/deployment-config.php:8-39 | the script resolves each tree and then merges; it exports what merging first and resolving once would give |
| DeploymentLeaves.ExportedLeaves | images/php-nginx/deployment-config.php:8-39 | every leaf a start exports: the override's, or the configuration's where the override has nothing at or above it, each text being what it stands for in the environment, with the named credential as the password |
| PatternGrammars.StableIDGrammar | sdk/validation.go:13 | the stable-ID pattern as a grammar |
| PatternGrammars.ImageGrammar | sdk/coverage.go:52 | an image reference is a name, an at sign and a digest |
| PatternGrammars.DigestGrammar | sdk/artifact.go:26-27 | the digest and fingerprint patterns as grammars |
| Text.SpaceMeans | sdk/cleanup_ledger.go:123 | the code points that trimming treats as white space |
| Text.TrimSpaceMeans | sdk/cleanup_ledger.go:123 | trimming cuts white space off both ends, and all of it |
| Ordering.StrLeMeans | sdk/cleanup_ledger.go:227-234 | the string order: a prefix first, else the lesser character where two strings first differ |

## Left out

- Contexts, clocks and timers: each attempt of a wait sees a live, cancelled or expired context, chosen freely; nil
  arguments are not modelled.
- JSON, SHA-256, RFC 3339 times, URL parsing and the secret scan over results, records and contracts: booleans, decoder
  parameters or injective digests; JSON is assumed to round-trip. The ledger's own secret-name check is modelled.
- Error texts: each error path is one constructor or a boolean; joined validation problems collapse to a refusal.
- Field checks of the architecture, adapter descriptor and edge request that no modelled step reads: one boolean each.
- Aliasing of Go slices and maps, and the clone functions that prevent it: values are immutable here.
- The ledger slice of the cleanup reconciler is a sequence in a value the methods reassign; writing through the
  caller's slice is not captured.
- Case mapping of letters outside ASCII in stage suffixes, backup methods and ledger texts, beyond the two code points
  that fold onto ASCII letters.
- CleanupReconciler.ReconcileCleanup: does not model a save error whose text is returned, only that it ends the pass.
- CleanupConvergence.FirstPassCompletes: does not cover tombstoned, refused, protected or delayed entries; tombstones
  stay pending by design.
- The admission probe's panics, and the process-wide memory model behind the mutex and channel.
- The nil-versus-empty distinction of quota maps and slices in admission inputs.
- ArtifactRegistry.RunsConsistent: each registry call is atomic; the file lock, the temporary file and the rename are
  not part of this model, only that an error may come before or after the effect.
- Bounding a probe's or a build's duration; retries by the callers of these functions.
- PreviewOwnership.RunEvolves: guard calls are serialised; the read-check-write on the stack tag is not atomic, and
  concurrent guards, manual tag edits and stack removal are not modelled. The target descriptor check is left out.
- Floating-point rounding in percentiles and throughput: real arithmetic, with the index rounded down as in the code.
- HTTP, URLs and response bodies: a request is unbuildable, or is answered with a status or a transport error.
- WeightedSchedule.TicketsAreFair: stops at the 64-bit wrap of the ticket counter, where the cycle restarts unevenly.
- Building a coverage boundary from an architecture, and the loops of the boundary's own validation, which is a
  predicate here.
- Go's compound validators in sdk/contracts.go, sdk/certification.go, sdk/topology.go and similar files: one-branch
  field checks that would add only easy members.
- The acceptance programs, provider SDK adapters, generators, documentation rendering and protocol messages: I/O and
  formatting.
