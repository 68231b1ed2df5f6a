# OperaMind: verified models of its decision engines

OperaMind is a control plane for change delivery. Around language-model output it puts small
deterministic engines that decide what may be edited, what counts as evidence, what may run once
and when a change is done. This project models those engines in Dafny and proves what they promise.
One module stands for one source component.

| module | what it models |
|---|---|
| TokenEstimate | the token estimate written into the artifact whose rendered size it is |
| ContextAssembly | merging reasons by priority, and grouping evidence by section |
| CodeGraph, ImpactClosure, CodeScope | the two-hop closure of a proposed code scope |
| UnresolvedEvidence | closing findings of an earlier report over lists that are shared and extended in place |
| CommandExecution | approved commands: lock, reserve, execute, record, recover |
| OrchestrationWorker | one worker iteration with its heartbeat thread |
| MainFlowExecution | leased executors of one test-data run, and what failures may change |
| ChangeAutomation, MainChangeFlow | the workflow decision, and its projection to six public stages |
| ChangeCoverage, CoverageReport | changed-line coverage, and the readers that produce its evidence |
| EditScope, ChangeClosure | what an approval grants, and when a change is closed as passed |
| PlanAlignment, DataCoverage | acceptance of a test plan and the data plan that executes it, down to each data condition |
| HybridSearch | reciprocal rank fusion, and one fragment for each document |
| DiagnosticStore | the bounded report store, against an unbounded log |
| StagedEdit, TrackedRestore | the staged multi-file edit, and the restoration of rejected drafts |
| Wrappers, Sequences, Ordering | options and results, uniqueness of lists, Python's order on strings |

Code that updates objects, lists and dictionaries step by step is written as classes, methods and
loops and proved against functions, and the properties are lemmas about those functions. Protocols are
state machines: `Next` takes one step of any participant, a step that is not enabled changes nothing,
and `Run` folds any sequence of steps, so a lemma about `Run(actions)` is about every interleaving.
`dafny verify dfyconfig.toml` checks everything.

## Results where code and promise differ

Six properties one would expect do not hold of the code as it is. Each is modelled as the code has it,
with a lemma that says exactly when it holds.

- Closing findings: the candidate list of one finding is the list stored in the index, so extending it
  changes what later findings see. `SharingIsHarmlessIff` gives the exact condition on the earlier
  report; `HarmRuleCloses` and `HarmWalkSeesBoth` give a graph on which the outcome differs.
- A failure of an executor that has lost its lease can still end the run of the executor that took it
  over, because ownership is read before the write and without a lock. `MayOverrideIff` gives the exact
  condition, known at the read: the lease of the failing owner ends before the write.
  `LateFailureOverridesNewOwner` is a run.
- The staged edit is not all or nothing when a rename of the swap loop fails after another went through:
  the loop is outside the inner `try`, and the backups are deleted. `AlwaysAllOrNothingIff` says for which
  edits no failure can do that, and `AllOrNothingIff` which failures do it.
- A change can close although a data flow of one of its cases has no result. `PassMeansFlowsRanIff` gives
  the plans for which it cannot, and `UnexecutedFlowCanPass` one for which it can.
- A closure can be refused without listing anything unresolved, for instance when every case of a plan
  with UI cases alone passes and the command suite failed. `SilentRefusalIff` lists the cases exactly, and
  `SilentRefusal` shows that one.
- The report store does not always agree with an unbounded log once clock readings go back, which they
  can even on a steady machine, since the time of a record is read before the lock is taken.
  `AlwaysAgreesIff` gives the exact condition on the readings, and `BackwardsClockLosesReport` a run.

## Model

| member | source | states |
|---|---|---|
| TokenEstimate.Artifact.StableEstimatedTokens | src/operamind/application/context_package.py:576-589 | for every artifact the loop stops after at most four passes; the number it leaves is the weight of the artifact that contains it, and no smaller number covers its own weight |
| TokenEstimate.Artifact.FinishPackage | src/operamind/application/context_package.py:466-472 | a package is accepted exactly when some number that describes its own artifact fits the budget; the number stored is then the least such one |
| TokenEstimate.ReestimateIsStep | src/operamind/application/context_package.py:582-588 | re-rendering depends on the stored number only through its count of decimal digits |
| TokenEstimate.ChainBelow | src/operamind/application/context_package.py:579-589 | no pass goes above a number that already covers its own weight |
| TokenEstimate.ChainSettles | src/operamind/application/context_package.py:579-589 | the fourth pass never changes the third, for every artifact |
| TokenEstimate.PackageFrame | src/operamind/application/context_package.py:582-588 | artifacts exist for every frame weight from 28 quarters up |
| TokenEstimate.FourPassesNeeded | src/operamind/application/context_package.py:579-589 | the bound is exact: an artifact for which the passes compute 99999, 100000, 100001 and 100001 |
| TokenEstimate.TwoSelfDescribingNumbers | src/operamind/application/context_package.py:579-589 | least matters: an artifact that both 99 and 100 describe |
| ContextAssembly.ReasonLedger.SetReason | src/operamind/application/context_package.py:524-527 | after each offer the ledger holds, for every node offered so far, a reason that was offered for it and that no other offer beats |
| ContextAssembly.ReasonLedger.SetReasons | src/operamind/application/context_package.py:524-527 | the same over any list of offers |
| ContextAssembly.MergeOrderIrrelevant | src/operamind/application/context_package.py:514-527 | two lists of offers with the same members, in any order and multiplicity, leave the same reasons |
| ContextAssembly.GroupBySection | src/operamind/application/context_package.py:535-547 | fails exactly when some record has no section; otherwise each section lists exactly its records, in collection order |
| ContextAssembly.BuildItems | src/operamind/application/context_package.py:549-572 | fails exactly when a listed section is unknown; otherwise one item for each section, in order, with its sorted evidence and its best reason |
| ContextAssembly.ContextItems | src/operamind/application/context_package.py:530-573 | succeeds exactly when every record has a known section; items are strictly ordered by section, faithful, and leave no record out |
| ContextAssembly.EvidenceCitedOnce | src/operamind/application/context_package.py:552-571 | evidence is conserved: a record is cited by the item of its own section and by no other |
| CodeGraph.BuildIndexes | src/operamind/application/copilot_impact.py:381-390 | each reference leads to the path of the last file that declares it, as file id or as symbol id; each path has the role of its last entry; every reference leads to a path with a role |
| CodeGraph.IndexesAre | src/operamind/application/copilot_impact.py:381-390 | exactly the declared references and listed paths are indexed, and the last one wins |
| CodeGraph.BuildAdjacency | src/operamind/application/copilot_impact.py:392-411 | the adjacency lists hold exactly the usable edges, in both directions |
| CodeGraph.BallIsWithinHops | src/operamind/application/copilot_impact.py:434-444 | what the frontier reaches in k levels is exactly the set of files joined to the seed by a walk of at most k usable edges |
| CodeGraph.EdgesAtAreIncident | src/operamind/application/copilot_impact.py:438-440 | the edge ids recorded at some files are exactly those of the usable edges that touch one of them |
| CodeGraph.Expand | src/operamind/application/copilot_impact.py:436-444 | one level of the frontier loop adds exactly the unvisited neighbours and the edges looked at |
| CodeGraph.Explore | src/operamind/application/copilot_impact.py:431-444 | the bounded loop returns the ball of the given radius and the edges touching the ball one smaller |
| ImpactClosure.FindingsByDistance | src/operamind/application/copilot_impact.py:431-455 | for every seed the related code files are the other production, config, migration and contract files within two undirected usable edges, the tests are those within two, and the edge ids are those touching a file within one |
| ImpactClosure.Search | src/operamind/application/copilot_impact.py:431-455 | the search of one seed computes exactly that finding |
| ImpactClosure.GatherMeaning | src/operamind/application/copilot_impact.py:413-460 | what is missing is what some seed finds and nobody submitted; the edges kept for a missing file are those of every seed that finds it |
| ImpactClosure.ScopeList.CompleteScopes | src/operamind/application/copilot_impact.py:376-477 | rejects exactly when a found test was not submitted, and then names those tests; otherwise the list in place becomes the completed one |
| ImpactClosure.ClosureOnlyAdds | src/operamind/application/copilot_impact.py:466-477 | on success the given entries keep their order and gain only annotations, and what follows is one review-only entry for each missing file |
| ImpactClosure.ClosureIsComplete | src/operamind/application/copilot_impact.py:448-477 | every code file within two hops of a seed is a target of the completed list, and every such test file was submitted |
| ImpactClosure.ClosureKeepsTargetsDistinct | src/operamind/application/copilot_impact.py:456-477 | completion introduces no duplicate target |
| ImpactClosure.ClosureIsIdempotent | src/operamind/application/copilot_impact.py:376-477 | completing a completed list succeeds and changes nothing |
| CodeScope.NormalizeProposals | src/operamind/application/copilot_impact.py:287-360 | accepts exactly the lists whose entries are all admissible and name distinct paths, and normalises each entry |
| CodeScope.ValidateCodeScope | src/operamind/application/copilot_impact.py:265-362 | accepts exactly when there is document evidence, every entry is admissible and distinct, and the submitted tests cover the two-hop closure; returns the completed scope with distinct targets |
| UnresolvedEvidence.IndexByKey | src/operamind/unresolved_evidence.py:162-174 | the lists by key hold, in edge order, the resolved edges that carry the key, and are separate objects |
| UnresolvedEvidence.CollectCandidates | src/operamind/unresolved_evidence.py:185-189 | a finding extends in place the very list it looked up, and reads what earlier findings left there |
| UnresolvedEvidence.CloseFindings | src/operamind/unresolved_evidence.py:153-194 | the loop over shared lists closes each finding as a functional account of the in-place extensions says |
| UnresolvedEvidence.WalkFollowsRule | src/operamind/unresolved_evidence.py:153-194 | without harmful sharing the loop closes the same findings, on the same edge ids, as the rule that looks at each finding alone |
| UnresolvedEvidence.SharingIsHarmlessIff | src/operamind/unresolved_evidence.py:184-191 | the loop follows the per-item rule on every graph exactly when no earlier finding puts into a list something that a later reader of the list does not see anyway |
| UnresolvedEvidence.SeparatedKeysAreHarmless | src/operamind/unresolved_evidence.py:184-191 | distinct finding keys, none of them the edge key of another finding, are enough |
| UnresolvedEvidence.WalkEqualsRule | src/operamind/unresolved_evidence.py:190-194 | when an edge id names one edge, the edges agree and not only their ids |
| UnresolvedEvidence.HarmRuleCloses | src/operamind/unresolved_evidence.py:184-191 | for findings with harmful sharing, a graph on which the rule closes the later finding |
| UnresolvedEvidence.HarmWalkSeesBoth | src/operamind/unresolved_evidence.py:184-191 | on that same graph the loop sees two edges and leaves the finding open |
| CommandExecution.PassedIffVouched | src/operamind/application/command_execution.py:230-258 | a record says passed exactly when the process was launched and read, did not time out, left nothing running, exited as expected, left the worktree as it was, and had its report if it is a coverage command |
| CommandExecution.ExecutedAtMostOnce | src/operamind/application/command_execution.py:172-272 | over every interleaving of callers, deaths, retries and recoveries a command execution id is started at most once |
| CommandExecution.OneCallerPerWorkspace | src/operamind/application/command_execution.py:385-410 | two callers are never between lock and record in one workspace |
| CommandExecution.NeverOverwritten | src/operamind/infrastructure/postgres/command_execution_repository.py:191-312 | no step changes or removes a reservation or a result |
| CommandExecution.ResultsPersist | src/operamind/infrastructure/postgres/command_execution_repository.py:243-312 | a recorded result is still there, unchanged, after any further run |
| CommandExecution.RepliesNeverDisagree | src/operamind/application/command_execution.py:192-214 | any two callers answered for one id, at any two moments of a run, get the same record |
| CommandExecution.PassedIsVouched | src/operamind/application/command_execution.py:230-272 | a stored passed result of any run rests on an execution in its history that met every condition |
| CommandExecution.RecoveredIsAnswered | src/operamind/application/command_execution.py:141-155 | recovery closes an interrupted reservation; after any further run a caller with the same request is answered with the interruption, one with another request is refused, and nothing is started for either |
| CommandExecution.RequestsPersist | src/operamind/infrastructure/postgres/command_execution_repository.py:191-241 | a reservation is still there, unchanged, after any further run |
| OrchestrationWorker.RunKeepsInvariant | src/operamind/application/orchestration_worker.py:214-310 | what the heartbeat thread, the events and the calls made say of each other, kept by every interleaving |
| OrchestrationWorker.AtMostOneSubmission | src/operamind/application/orchestration_worker.py:214-310 | one iteration makes at most one call that records a result or releases the claim |
| OrchestrationWorker.RecordsOnlyOnLiveLease | src/operamind/application/orchestration_worker.py:285-310 | a result is recorded only as the last call, after heartbeats that all succeeded and at least one of them |
| OrchestrationWorker.EndingTellsTheCalls | src/operamind/application/orchestration_worker.py:214-310 | what the iteration reports is what the queue was told: submitted and released exactly when that call succeeded |
| OrchestrationWorker.LeaseLostIffErrorAfterJoin | src/operamind/application/orchestration_worker.py:260-281 | after the join the lease-lost event is set exactly when an error was stored, so the branch for a cancelled handler with a lost lease is never taken |
| OrchestrationWorker.LeaseLostLagsBehindError | src/operamind/application/orchestration_worker.py:344-361 | while the thread lives the two can differ: a run in which the error is stored and the event is not set |
| OrchestrationWorker.IntervalWithinThird | src/operamind/application/orchestration_worker.py:363-370 | the pause fits three times into the lease exactly when it is configured so or the lease is not below 0.03 seconds |
| OrchestrationWorker.TimelyRunsStayOnTime | src/operamind/application/orchestration_worker.py:235-287 | over every timed interleaving, the first heartbeat, those of the thread and the final one each start within a pause of the end of the one before |
| OrchestrationWorker.LeaseNeverLapses | src/operamind/application/orchestration_worker.py:344-370 | over every timed interleaving, renewals start within a third of the lease plus the call time, and each takes effect before the one before it expires |
| MainFlowExecution.TerminalStatusIsFinal | src/operamind/application/main_flow_execution.py:104-250 | over every run of any number of executors a terminal status comes from one commit, is never changed again, and the event log only grows |
| MainFlowExecution.OnlyTheOwnerCompletes | src/operamind/infrastructure/postgres/test_data_execution_repository.py:316-340 | an execution result is committed only by the owner of an unexpired lease |
| MainFlowExecution.DownstreamFailureOnlyAppends | src/operamind/application/main_flow_execution.py:317-332 | an executor that fails after its result is committed only appends one event, whatever others do in between |
| MainFlowExecution.FailureTakesEffectIff | src/operamind/application/main_flow_execution.py:290-371 | publishing a failure ends the run exactly when the publisher read itself as the owner of a running run and the run is still running when it writes; a non-owner changes nothing |
| MainFlowExecution.LeaseKeepsOwner | src/operamind/infrastructure/postgres/test_data_execution_repository.py:612-675 | ownership passes on only after the lease has run out, over any further run |
| MainFlowExecution.MayOverrideIff | src/operamind/application/main_flow_execution.py:304-363 | the exact condition, known at the read: a failure may override another executor by the time it is written exactly when its publisher owned the running run and its lease ends by then |
| MainFlowExecution.ExpiredLeaseCanBeOverridden | src/operamind/infrastructure/postgres/test_data_execution_repository.py:612-675 | from any state in which the owner is failing, once its lease is over another executor can take the run and be overridden |
| MainFlowExecution.PromptFailureOverridesNobody | src/operamind/application/main_flow_execution.py:290-371 | a failure published before the lease it read has run out overrides nobody |
| MainFlowExecution.LateFailureOverridesNewOwner | src/operamind/application/main_flow_execution.py:304-363 | a run in which a late failure does end the run of the executor that had taken it over |
| ChangeAutomation.DecideIsFirstFailingGate | src/operamind/application/change_automation.py:305-596 | for all inputs the nested resolvers never raise, report the first gate of one flat list that does not pass, and satisfy the separate validator |
| ChangeAutomation.CompletedIffAllPass | src/operamind/application/change_automation.py:305-596 | the workflow is completed exactly when every gate passes |
| ChangeAutomation.GatesSound | src/operamind/application/change_automation.py:18-36 | every report of the flat list is valid and the list ascends in stage order |
| ChangeAutomation.ConfirmNeverMovesBack | src/operamind/application/change_automation.py:305-596 | confirming one more checkpoint never moves the decision to an earlier stage |
| MainChangeFlow.DecisionsProject | src/operamind/application/change_automation.py:160-192 | whatever is decided can be read back from its persisted form, as itself |
| MainChangeFlow.NormalizePublicStatuses | src/operamind/application/change_automation.py:235-274 | fails exactly on a wrong number of evidence statuses or an unreadable state |
| MainChangeFlow.NormalizedMeaning | src/operamind/application/change_automation.py:235-274 | all six stages are completed exactly when the persisted stage is and no evidence is blocked; the current stage is never past the persisted public stage, everything before it is completed, and blocked evidence is never passed over |
| MainChangeFlow.BuildFlow | src/operamind/application/main_change_flow.py:51-113 | fails exactly when the persisted state cannot be read; otherwise shapes the normalised stages |
| MainChangeFlow.FlowShape | src/operamind/application/main_change_flow.py:72-113 | whatever the six statuses are, the flow has done stages, one current stage and waiting stages; at most the current one is blocked, the flow is blocked exactly when it is, and completed exactly at 100 percent |
| MainChangeFlow.DecisionOnScreen | src/operamind/application/main_change_flow.py:51-113 | from a valid decision to the screen: the current stage is never past the decided one, and the flow is completed exactly when the decision is and no evidence is blocked |
| MainChangeFlow.PublicFollowsRank | src/operamind/application/change_automation.py:18-36 | the six public stages follow the order of the detailed stages |
| ChangeCoverage.BuildLineMap | src/operamind/application/change_coverage.py:222-233 | accepts exactly distinct safe paths with distinct positive lines, and maps each path to its lines |
| ChangeCoverage.ResultOf | src/operamind/application/change_coverage.py:144-157 | the lines that count are those both changed and executable, and covered and uncovered lines partition them |
| ChangeCoverage.Judge | src/operamind/application/change_coverage.py:101-141 | passes exactly when no changed source file is missing from the evidence and 100 times covered reaches threshold times changed; blockers name exactly the missing files and the shortfall, and are empty exactly on a pass |
| ChangeCoverage.Evaluate | src/operamind/application/change_coverage.py:53-141 | the status of every case: not required, missing, passed or failed, with the file results and percentage of each and blockers exactly for missing and failed |
| ChangeCoverage.SourcesAre | src/operamind/application/change_coverage.py:65-66 | the files judged are the changed source files with changed lines, in order and as often as they are listed |
| ChangeCoverage.PercentAgainstThreshold | src/operamind/application/change_coverage.py:111-115 | the percentage comparison is the cross-multiplied one, with 100 percent when nothing changed |
| ChangeCoverage.CountsAreBounded | src/operamind/application/change_coverage.py:111-115 | covered never exceeds changed, so the percentage lies in 0 to 100 |
| ChangeCoverage.MoreCoverageStillPasses | src/operamind/application/change_coverage.py:101-141 | covering more lines never turns a pass into a failure |
| CoverageReport.ReadLcov | src/operamind/application/coverage_report.py:109-125 | succeeds exactly when every line is readable where it stands; then files, executable and covered lines are exactly what the records under each source line state |
| CoverageReport.ReadCoveragePy | src/operamind/application/coverage_report.py:58-81 | fails exactly on an unreadable record; the last record of a file counts, entries that are no objects do not |
| CoverageReport.StatedIsConsistent | src/operamind/application/coverage_report.py:109-125 | every line an LCOV report states as covered it states as executable |
| CoverageReport.TuplesAccepted | src/operamind/application/coverage_report.py:141-142 | the tuples handed over pass the evidence checks exactly when all line numbers are positive |
| CoverageReport.TuplesRoundTrip | src/operamind/application/coverage_report.py:141-142 | reading the tuples back gives the line map they were made from |
| CoverageReport.ReadersProduceEvidence | src/operamind/application/change_coverage.py:23-36 | what a reader yields is valid evidence exactly when its line numbers are positive and its reference is not blank |
| ChangeClosure.FlowResultsByCase | src/operamind/application/change_closure.py:317-332 | each case gets the results of the flows that list it, in plan order, a later result of a flow replacing an earlier one |
| ChangeClosure.ResultsForAre | src/operamind/application/change_closure.py:317-332 | which results a case is judged by: exactly those of flows that list it and have one |
| ChangeClosure.UiResultsByCase | src/operamind/application/change_closure.py:335-350 | fails exactly when two scenario entries claim one case; otherwise holds exactly the claims |
| ChangeClosure.CasePassedIff | src/operamind/application/change_closure.py:353-418 | a case is passed exactly when its evidence says so: a passed scenario or passing committed command tests, and all data flow results passed with at least one where data is needed |
| ChangeClosure.FullPercentMeansAllCovered | src/operamind/application/change_closure.py:572-584 | 100 percent of the business rules means there are rules and every one is covered |
| ChangeClosure.RulesSatisfiedIff | src/operamind/application/change_closure.py:572-584 | full percentage and a consistent summary amount to all rules covered, matching counts, a reported percentage of 100 up to 1e-9 and a passed status |
| ChangeClosure.LateObjections | src/operamind/application/change_closure.py:430-505 | past the guards of the verdict only an interrupted data cleanup or a UI failure reason is left to object |
| ChangeClosure.VerdictPassedIff | src/operamind/application/change_closure.py:508-556 | the verdict is passed exactly under one conjunction over the raw evidence |
| ChangeClosure.FailedIff | src/operamind/application/change_closure.py:517-555 | the verdict is failed exactly when scope was kept, no evidence is missing and something that ran went wrong |
| ChangeClosure.UnresolvedEmptyIff | src/operamind/application/change_closure.py:430-505 | nothing is listed as unresolved exactly when every part of the evidence is settled |
| ChangeClosure.SilentRefusalIff | src/operamind/application/change_closure.py:430-556 | with artifacts that give reasons for their refusals, a closure that is not passed and lists nothing as unresolved is exactly one of five cases |
| ChangeClosure.SilentRefusal | src/operamind/application/change_closure.py:544-556 | such a closure exists: every case passes, the command suite failed, nothing is listed |
| ChangeClosure.Evaluate | src/operamind/application/change_closure.py:36-71 | the whole evaluation: passed exactly under that conjunction, reanalysis exactly when scope was left, failed exactly when complete evidence shows something wrong |
| ChangeClosure.PassMeansFlowsRanIff | src/operamind/application/change_closure.py:317-332 | every pass of given plans means that all flows serving their cases have passed exactly when each such flow is, by its id, the only one of some case |
| ChangeClosure.UnexecutedFlowCanPass | src/operamind/application/change_closure.py:317-332 | plans for which it does not: two flows for one case, one of them without a result |
| EditScope.PacketIssuedIff | src/operamind/application/edit_packet.py:79-142 | a packet is issued exactly under the declared conditions; the only overlap possible is between a file to edit and a file to review |
| EditScope.PacketContents | src/operamind/application/edit_packet.py:85-108 | the editable, read-only and test files of a packet and its allowed items, in terms of the approved items |
| EditScope.PacketIsSorted | src/operamind/application/edit_packet.py:95-108 | the file lists of a packet are strictly sorted, so free of duplicates |
| EditScope.ScopeStatusMeaning | src/operamind/application/edit_result.py:131-138 | out of scope exactly when a changed path is not writable, no changes exactly when none changed |
| EditScope.WritableIsGranted | src/operamind/infrastructure/postgres/edit_result_repository.py:113-116 | every writable path is a target or test of an approved item that asks for a change, is safe, and matches no forbidden pattern |
| EditScope.PassedChangeWasApproved | src/operamind/application/change_closure.py:516-520 | from approval to closure: every path a passed change touched was granted by an approved item, is safe and is not forbidden; a review-only approval closes only with no change |
| PlanAlignment.CollectSteps | src/operamind/application/copilot_coding_task.py:1991-2010 | accepts exactly parallel, globally unique step ids over natural-language steps, and collects them by case |
| PlanAlignment.CheckFlow | src/operamind/application/copilot_coding_task.py:2029-2062 | accepts exactly flows whose steps stay within their cases and reference steps only from Playwright UI steps; returns exactly the referenced ids |
| PlanAlignment.ReferredInItsOwnFlow | src/operamind/application/copilot_coding_task.py:2028-2068 | a step that any flow references is referenced by a flow that lists the case owning it |
| PlanAlignment.EveryStepReferred | src/operamind/application/copilot_coding_task.py:2063-2068 | no missing reference is left exactly when every step is referenced by a flow of its own case |
| PlanAlignment.ValidatePlanningAlignment | src/operamind/application/copilot_coding_task.py:1971-2099 | the nested loops accept exactly the declared condition on both plans, data coverage included |
| DataCoverage.CheckCondition | src/operamind/application/test_data_coverage.py:54-84 | each objection to a condition is raised exactly when it applies |
| DataCoverage.ValidateAlignment | src/operamind/application/test_data_coverage.py:9-93 | no reason is given exactly when every criterion, case and data tuple is proved, by conditions that are bound to wanted tuples of their own data, read the identifying observation, prove more than the identity and are distinctly named |
| HybridSearch.ReciprocalRankFusion | src/operamind/application/hybrid_search.py:470-507 | the loop over both channels computes the fused list of the functional specification |
| HybridSearch.FusionShape | src/operamind/application/hybrid_search.py:493-507 | the first min(limit, n) distinct targets by score descending and id ascending; whatever is left out comes after everything kept |
| HybridSearch.FusionScores | src/operamind/application/hybrid_search.py:494-506 | scores lie in (0, 1], the first is 1, and the channels of a candidate are exactly those that hit it |
| HybridSearch.ScoresAreProportional | src/operamind/application/hybrid_search.py:482-500 | each score shown is the sum of the reciprocal ranks of its target over that of the first |
| HybridSearch.FusionIgnoresListing | src/operamind/application/hybrid_search.py:482-507 | the result does not depend on the order hits are listed in |
| HybridSearch.BetterRankedComesFirst | src/operamind/application/hybrid_search.py:482-507 | a target hit wherever another is, never at a worse rank and somewhere strictly better, is listed before it whenever the other is listed |
| HybridSearch.BestPlacesAre | src/operamind/application/hybrid_search.py:314-324 | the selected places are those of fragments with no earlier fragment of their document, in rank order |
| HybridSearch.SelectRequirementDocuments | src/operamind/application/hybrid_search.py:302-324 | keeps the best-ranked fragment of each of the first min(limit, documents) documents, in rank order; a limit below 1 acts as 1 |
| DiagnosticStore.LocalEnvironmentDiagnosticStore.Record | src/operamind/application/local_environment_diagnostics.py:55-75 | accepts exactly the reports whose times are zoned and near enough and leaves the store alone otherwise; on success prunes, inserts, and evicts an oldest entry beyond 32 |
| DiagnosticStore.LocalEnvironmentDiagnosticStore.Latest | src/operamind/application/local_environment_diagnostics.py:77-83 | the entry is the last of its consumer and recent; whenever the newest survives, the answer is that of a log that forgets nothing |
| DiagnosticStore.LocalEnvironmentDiagnosticStore.Prune | src/operamind/application/local_environment_diagnostics.py:85-92 | drops exactly the entries older than 15 minutes |
| DiagnosticStore.ReachedReflects | src/operamind/application/local_environment_diagnostics.py:55-92 | after any calls with any clocks the store holds at most 32 entries, each the last logged for its consumer |
| DiagnosticStore.InsertedCarries | src/operamind/application/local_environment_diagnostics.py:70-75 | inserting and evicting an oldest entry never loses the greatest receipt time, ties included |
| DiagnosticStore.SurvivingNewestIsFound | src/operamind/application/local_environment_diagnostics.py:77-92 | over every run: when nothing is recent, or the last record is of greatest time and no later clock passed its retention, the store agrees with the log |
| DiagnosticStore.AlwaysAgreesIff | src/operamind/application/local_environment_diagnostics.py:55-92 | that condition on the clock readings is exact over all consumers and all choices of eviction |
| DiagnosticStore.SteadyClocksAgree | src/operamind/application/local_environment_diagnostics.py:55-92 | clocks that never go back meet it |
| DiagnosticStore.BackwardsClockLosesReport | src/operamind/application/local_environment_diagnostics.py:77-92 | with a clock that goes back, a run in which a recent report is not found |
| StagedEdit.FileSystem.ApplyAndMaterialize | src/operamind/application/copilot_document_change.py:271-299 | for every pattern of failing copies, renames and publication, interrupts included: the outcome, what every document holds after it, and that no temporary file remains |
| StagedEdit.FailureLeavesOriginals | src/operamind/application/copilot_document_change.py:271-299 | a changed document, a failed backup, a failed publication or a first rename that fails leaves every document as it was |
| StagedEdit.SuccessReplaces | src/operamind/application/copilot_document_change.py:281-290 | over distinct paths a success leaves every document with its replacement |
| StagedEdit.AllOrNothingIff | src/operamind/application/copilot_document_change.py:271-299 | which patterns of faults leave all originals, and which all replacements, in terms of the faults |
| StagedEdit.AlwaysAllOrNothingIff | src/operamind/application/copilot_document_change.py:281-299 | the edit is all or nothing under every pattern of faults exactly when it has one document, or one that no longer has its prepared content |
| TrackedRestore.Worktree.RestoreTrackedFiles | src/operamind/application/local_source_control.py:156-199 | writes nothing unless the request is well formed and every path is at its baseline and unstaged; on success exactly the given paths are checked out and have their expected digests; on a failure, even in the middle of a repository, each path is as it was or checked out, and no other is touched |
| TrackedRestore.EnterGroups | src/operamind/application/local_source_control.py:170-188 | grouping by repository keeps every path, under its own repository |
| TrackedRestore.Worktree.RollbackMaterialized | src/operamind/application/copilot_document_change.py:301-359 | touches no file unless every document is at its source or target digest, never touches a file that is not at a target, and on success over distinct paths leaves every document at its source digest |

## Left out

- SHA-256 digests: `digest` is an arbitrary function of content, and request and result identities in CommandExecution are compared as values, so collisions of the stored digests are not modelled.
- Glob, path-safety, naming and natural-language tests are arbitrary predicates on strings.
- Floating point: scores, percentages, thresholds and pauses are real numbers, and token weights are counted in quarters; rounding errors are not modelled.
- PostgreSQL: each repository operation is one atomic step of the relevant state machine; row locks, isolation levels and retries inside the database are not modelled, and database and local clocks are one clock.
- Subprocesses, signals, file locks, Git and Playwright: only their outcomes enter, as inputs of the steps.
- JSON-Schema validation of artifacts, Japanese messages and presentation dictionaries: error values keep the kind of a failure, not its text.
- Missing dictionary keys that would raise KeyError in the source: record fields are always present.
- JaCoCo reports: the third coverage reader walks XML with workspace globbing; its handling of lines is that of the other two.
- UnresolvedEvidenceReportBuilder.build: the sorting and counting of open and closed items, and the text of guidance, are not modelled; only which findings close, and on which edge.
- ChangeClosure.Evaluate: component identity checks, evidence reference lists, summaries and the traceability table are not modelled; unresolved items are a set of tagged values and not a sorted list of strings.
- ContextAssembly.BuildItem: heading path and compressed summary are text only and left out.
- TokenEstimate.Artifact.StableEstimatedTokens: other artifact members are given as their rendered text, with keys sorted as the renderer sorts them.
- CommandExecution.ExecutedAtMostOnce: counts launches by this service; what a command does with processes of its own is outside.
- OrchestrationWorker.LeaseNeverLapses: assumes that a heartbeat call takes less than a third of the lease, since calls that hang have no bound in the source, and that steps other than calls, waits and the handler take no time.
- MainFlowExecution.Run: automatic locator feedback and the contents of closure artifacts are left out; a failing closure publication rolls its transaction back.
- CoverageReport.ReadLcov: paths are already resolved against the workspace; a path outside it is an unreadable line.
- HybridSearch.BetterRankedComesFirst: a channel lists a target at most once, as the index queries return one row for each entry.
- HybridSearch.SelectRequirementDocuments: the relevance order is an input; bigram and heading relevance are not modelled.
- DiagnosticStore.LocalEnvironmentDiagnosticStore.Record: which of several equally old entries is evicted is left open, where the source takes the first in dictionary order; `AlwaysAgreesIff` holds for every choice.
- StagedEdit.FileSystem.ApplyAndMaterialize: staging the replacements, partial copies, and deletions of temporary files that fail or are interrupted are not modelled; temporary names are fresh.
- StagedEdit.AlwaysAllOrNothingIff: documents have distinct paths and every edit changes its document, since otherwise two states that should differ coincide.
- TrackedRestore.Worktree.RollbackMaterialized: documents are given in id order with their paths resolved; that all are left at their source is claimed for distinct paths.
- TrackedRestore.Worktree.RestoreTrackedFiles: a `git restore` that fails may have written any of its paths, but each file it wrote is written whole.
- Edit packet publication, approval grants, orchestration planning, readiness checks, document conversion and the editor extension: flat checks or foreign calls that would only add easy members.
