# Verified model of the incident-remediation service

The service takes alerts in, proposes remediation actions, lets a policy and an operator decide on
them, executes approved actions against a workload, verifies the outcome and rolls back. This project
models the parts of it that have to be right under concurrency and crashes, and proves properties of
them with Dafny. `dafny verify dfyconfig.toml` checks everything.

## How the model is built

**The guarded execution protocol** (`Tables`, `Protocol*`, `EvidenceHistory`, `RunGuards`, `Completion`,
`DecisionOutcomes`, `AdmissionOutcomes`, `SettlementOutcomes`, `Recovery`, `NoRollback`, `Rejection`, `Revival`,
`Unrepaired`). The relational store is a value; each of its transactions is one function (`Tables`). Every call of the services is a
thread whose program counter stands between two accesses to the store (`Protocol`): approval,
rejection, triage and policy evaluation, execution with retries, verification, rollback, recovery. Threads
interleave freely, any of them may stop with an error (a failing store or audit write, stale evidence, a
cancelled request), a crash removes them all, and a boot runs recovery alone before calls are served. A
log remembers what the adapter was asked to do. `ProtocolInvariant` gives the inductive invariant as a
rely-guarantee argument: each program counter past a claim owns its action, a step may rewrite without
a guard only what it owns (`Guarantee`), and what a thread knows survives the steps of all others
(`Stable`). `ProtocolWrites` and `ProtocolSteps` discharge it store write by store write and program
counter by program counter, `ProtocolRuns` lifts it to runs, `ProtocolTheorems` draws the conclusions.
`Completion` runs a single thread to its end (`Finish`), proves that this is a run of the system, and
computes the outcome of verification and rollback; `Recovery` does the same for a startup and says what it
does not repair. `DecisionOutcomes`, `AdmissionOutcomes` and `SettlementOutcomes` say in the fields of rows,
records and catalog entries what each call asks for and leaves behind: approval, rejection, evaluation and
triage; the checks before a claim; claim, dispatch, final record, verification, rollback and recovery. They name
none of the functions the threads are made of, so they are a second account of the same calls.
`ProtocolHistory` and `EvidenceHistory` look back along a run for the moments an approval
and the evidence were checked, and `RunGuards` for the person who decided, the decision that asked for an
approval and the catalog entry that permits the dispatch. `NoRollback` follows one configuration through all runs, `Rejection` gives the
exact condition for one call, `Revival` builds a run that brings an escalated incident back, and
`Unrepaired` one that ends with an incident nobody works on.

**The imperative code.** `MemoryStore` is the locked struct of per-incident slices and maps; every
method except `SaveCandidateActions`, which replaces rows the transaction keeps, is proved to answer and to
change the tables as the transaction does. `RemediationService` and
`ApprovalService` are the services on top of it, written as the source writes them; every method is
proved to leave the world, and the error or not, that the protocol's thread for the same call leaves when
it runs alone. So the interleaving model and the sequential code are held together from both sides.

**The job queue** (`JobQueue`, `JobRunner`): table rows with leases, serial workers, lost answers,
crashes and a clock; the statements and one round of a worker over a mutable table.

**Smaller cores**: the recovery observation (`Verification`), the sliding-window limiter with its
in-place compaction (`Limiter`), the Redis stream worker (`RedisWorker`), the idempotent supervisor
operation behind the control adapter (`Operations`), query-label escaping and rendering
(`QueryRenderer`) with the exact conditions for the map order not to matter (`QueryOrder`,
`QueryOrderIff`), the approval digest (`Digest`), the policy cascade (`Policy`), the incident state table
(`StateMachine`) and webhook intake (`Intake`).

## What is not true of the code

Some properties one would expect are false; each is stated exactly.

- A claim does not look at the incident's state. It can take a terminal incident back to executing
  (`Tables.ClaimGrantedIff`, `ProtocolTheorems.OnlyClaimsRevive`; `Revival.ClaimRevivesIncident` is a run that
  does), so the life of an incident is bounded only by 10 + 6n state changes for n actions, and an alert
  can end up with two open incidents. A claim keeps it to one exactly under the condition of
  `Intake.ClaimKeepsOneOpenIff`.
- Rejecting an action stores the denial and then returns an error unless the incident can be refreshed.
  `Rejection.RejectionSucceedsIff` says when, over every state; `Rejection.RejectingLastAwaitingFails` and
  `Rejection.RejectingWhileExecutingFails` are two inputs that fail.
- A crash between the save of the final execution record and the move of the incident leaves the incident
  executing: recovery moves exactly the incidents with a started execution
  (`Recovery.OnlyStartedIsRecovered`, `Recovery.CrashAfterSaveIsNotRepaired`; `Unrepaired.CrashLeavesIncidentExecuting`
  is such a run). A later claim on another action of the incident, or an escalation, can still move it.
- A job can be stranded: running on its last attempt, held by nobody, and never changed again. That happens
  exactly by a crash during the last attempt, by a claim that begins it or a completion or failure that
  ends it whose answer is an error (`JobQueue.StrandedWhen`), and an unfinished job can still change if and
  only if it is not stranded (`JobQueue.ChangeableIff`, `JobQueue.StrandedForever`).
- A retried operation that had failed is answered 200 and read as a success, exactly when the first
  exchange that reached the supervisor asked for a retry and a later one brings the stored result back
  (`Operations.RepeatedRequest`, `Operations.RetriedFresh`, `Operations.ExecuteWithRetry`).
- The digest binds the fields exactly when they are free of NUL characters (`Digest.UnambiguousIff`).
- The in-memory store drops an incident's earlier actions when it saves new ones, the relational one
  keeps them; they agree exactly when there were none (`MemoryStore.ReplacingIsInserting`).
- A stream entry whose worker is killed, or that is read under the fail fault, is never delivered again;
  an entry can be delivered later exactly when it never was (`RedisWorker.AbandonedWhen`,
  `RedisWorker.DeliverableIff`, `RedisWorker.AbandonedForever`).
- The text of a query can depend on the order in which a map is iterated. For templates without stray double
  braces, a label is safe if and only if it is harmless: no placeholder of another field starts in it, or at
  a brace right before it (`QueryOrderIff.HarmlessIff`). For all templates it is safe if and only if it is
  foreign: it cannot be part of such a placeholder at all (`QueryOrderIff.ForeignIff`). An empty label and one
  that holds a placeholder are concrete failing inputs (`QueryOrderIff.EmptyValueDependsOnOrder`,
  `QueryOrderIff.BracedValueDependsOnOrder`).

## Model

| member | source | states |
|---|---|---|
| ProtocolTheorems.AtMostOneExecution | internal/execution/service.go:227-368 | in every reachable state of every interleaving with crashes and recoveries an action has at most one execution record and one operator decision, its operation was dispatched at most retries + 1 times and only when recorded, its rollback at most once |
| ProtocolTheorems.NoSecondClaim | internal/storage/memory.go:473-520 | once an action has a record, no later claim on it succeeds, whatever cooldown and attempt limit say |
| ProtocolTheorems.RecoveryNeverDispatches | internal/execution/service.go:139-225 | no step outside of serving calls dispatches an execute operation |
| ProtocolTheorems.OneExecutionPerTarget | internal/storage/postgres.go:1092-1116 | in every reachable state two started executions on one target are the same execution, across all incidents |
| ProtocolTheorems.InFlightCallHoldsTarget | internal/execution/service.go:332-409 | a dispatch in flight belongs to the stored started record of its action, the only started one on its target |
| ProtocolTheorems.EveryDispatchApproved | internal/execution/service.go:279-289 | every action value ever dispatched equals the stored row up to status and was certified by the action's only approval: by a named operator, for this digest and policy rule |
| ProtocolHistory.EveryDispatchWasChecked | internal/execution/service.go:431-455 | for every dispatch in a run an earlier state of the same run already held the approval it was made under, and that state's clock lies within the approval's lifetime |
| EvidenceHistory.EveryDispatchHadEvidence | internal/execution/service.go:457-485 | for every dispatch in a run there is an earlier state in which each of the action's evidence references, and there is one, named an item that was dated, recent and not marked incomplete |
| RunGuards.EveryDecisionIsSigned | internal/approval/service.go:182-311 | every approval or rejection stored in a reachable state goes back to a call, in an earlier state of the run, of the operator it names on that action; an approval bears the digest, saved rule and time of that state and lasts 900 seconds from it |
| RunGuards.EveryDispatchWasSigned | internal/approval/service.go:182-252 | for every dispatch in a run the operator its approval names had called to approve this very action, with the content that was dispatched |
| RunGuards.DeniedIsNeverDispatched | internal/approval/service.go:125-150 | in every reachable state an action whose saved decision denies it has the status denied, and every dispatched action has a saved decision that requires approval |
| RunGuards.EveryDispatchIsCatalogued | internal/execution/service.go:238-313 | whatever is dispatched in a run has a catalog entry that is executable, not of high risk, and whose environment and target lists, where it has any, hold the incident's environment and the target |
| ProtocolTheorems.ApprovalCoversOnlyThisAction | internal/execution/service.go:431-455 | whatever action and rule have the digest of a dispatch's approval are the dispatched ones in id, type, target, parameters, risk and trimmed rule, for NUL-free fields |
| ProtocolTheorems.StatusStep | internal/approval/service.go:125-150 | one step of any thread keeps an action's row and moves its status along one edge of the life cycle at most |
| ProtocolTheorems.StatusOnlyMovesForward | internal/execution/service.go:377-411 | between any two states of a run an action keeps its contents and its status only moves to a later one, although most status writes are unguarded |
| ProtocolTheorems.PotentialDrops | internal/storage/memory.go:149-163 | rank plus six per unclaimed action drops with every change of an incident's state; a terminal state is left only for executing and only by a new claim |
| ProtocolTheorems.IncidentLifecycleIsBounded | internal/incident/statemachine.go:5-66 | over any run an incident with n actions changes state at most 10 + 6n times |
| ProtocolTheorems.OnlyClaimsRevive | internal/storage/memory.go:513-517 | a step that takes an incident out of a terminal state claims one of its actions and leads to executing |
| NoRollback.SeveralObservationsNeverRollBack | internal/verification/service.go:418-443 | with more than one required observation no run ever calls a rollback, rolls an action back or has a thread doing so |
| Revival.ClaimRevivesIncident | internal/storage/postgres.go:1118-1126 | a run of the whole system to a database, satisfying the invariant, in which a claim takes an escalated incident back to executing and leaves its alert with two open incidents |
| Rejection.RejectionSucceedsIff | internal/approval/service.go:254-348 | over every state the whole call stores the denial and its record whenever the incident exists, and returns without an error if and only if the incident is action-proposed, or triaging with no other open action, or awaiting or approved with another action that keeps it so |
| Rejection.RejectingLastAwaitingFails | internal/approval/service.go:298-348 | a concrete failing call: the only awaiting action of an awaiting incident is denied and the caller gets an error |
| Rejection.RejectingWhileExecutingFails | internal/approval/service.go:298-348 | another one: the incident is executing an approved action while a third action still awaits approval |
| ProtocolRuns.NextKeeps | internal/execution/service.go:227-429 | every step of the system, by any thread, crash, boot or recovery, keeps the invariant and respects the guarantee |
| ProtocolRuns.InvariantHolds | internal/execution/service.go:139-429 | the invariant holds in every state of every run |
| ProtocolInvariant.Stable | internal/execution/service.go:377-411 | non-interference: a step by the owner of some actions leaves everything another thread knows true |
| ProtocolSteps.ThreadStepGood | internal/verification/service.go:187-367 | each of the 31 program counters, whatever the environment answers, keeps the store invariant, stays inside its guarantee and establishes what the next program counter knows |
| Tables.ClaimGrantedIff | internal/storage/postgres.go:1075-1138 | a claim is granted if and only if the action is executable and unrecorded and its target idle; the incident's state plays no part and becomes executing |
| MemoryStore.MemoryStore.ClaimExecution | internal/storage/memory.go:473-520 | on nested per-incident rows the claim accepts the same requests with the same effect as the transaction on flat tables |
| MemoryStore.MemoryStore.DecideApproval | internal/storage/memory.go:388-421 | the decision accepts, refuses and misses the same requests as the transaction, with the same effect |
| MemoryStore.MemoryStore.SaveExecutionRecord | internal/storage/memory.go:439-471 | replaces the record with this id or appends it under its action's incident; a claimed record is never duplicated |
| MemoryStore.MemoryStore.CompareAndSwapIncidentState | internal/storage/memory.go:149-163 | does what the guarded update does |
| MemoryStore.MemoryStore.UpdateCandidateActionStatus | internal/storage/memory.go:322-337 | finds the action under any incident, in any order, and does what the unguarded update does |
| MemoryStore.MemoryStore.SaveVerificationResult | internal/storage/memory.go:569-601 | keeps one result per execution, the newest |
| MemoryStore.MemoryStore.SaveRollbackRecord | internal/storage/memory.go:676-708 | replaces the rollback with this id or appends it under its action's incident |
| MemoryStore.MemoryStore.SaveCandidateActions | internal/storage/memory.go:279-293 | the rows of every incident in the batch become its part of the batch, whether the ids are new or known; all other rows stay, an empty batch changes nothing, and every execution and rollback keeps its action if and only if the batch holds those its incidents' executions and rollbacks refer to |
| MemoryStore.ReplacingIsInserting | internal/storage/memory.go:288-290 | dropping the earlier actions equals inserting if and only if the incident had none |
| MemoryStore.MemoryStore.SavePolicyDecisions | internal/storage/memory.go:339-348 | one decision per action, the last one of the batch wins |
| MemoryStore.MemoryStore.GetLatestIncidentByExternalAlertID | internal/storage/memory.go:175-195 | none if and only if the alert is unknown, else an incident of the alert that none is newer than |
| MemoryStore.MemoryStore.GetCandidateAction | internal/storage/memory.go:307-320 | finds the row of the flat table whatever incident it lives under |
| MemoryStore.MemoryStore.ListCandidateActions | internal/storage/memory.go:295-305 | lists exactly the incident's actions, each once, oldest first |
| MemoryStore.MemoryStore.ListExecutionRecordsByStatus | internal/storage/memory.go:554-567 | lists exactly the executions with the status, each once, by start time |
| MemoryStore.MemoryStore.HasExecution | internal/storage/memory.go:495-499 | looking at one incident's rows decides whether the action is recorded anywhere |
| MemoryStore.MemoryStore.IsTargetBusy | internal/storage/memory.go:500-512 | the nested loops over all incidents decide whether some started execution works on the target |
| Completion.FinishIsARun | internal/execution/service.go:227-429 | what a call computes alone is reached by steps of that call in the interleaving system |
| Completion.VerificationIsTotal | internal/verification/service.go:187-367 | from a verifying incident every verdict, every answer to the rollback and every failing write of the rollback ends, without error, in exactly one of resolved, rolled back or escalated, with the matching action status, rollback record and log |
| DecisionOutcomes.ApprovalLeaves | internal/approval/service.go:182-252 | over every state an approval goes through if and only if a decision is saved and the incident is action-proposed, awaiting or approved; it then leaves one record in the caller's name, for the stored action under the saved rule, for 900 seconds, and otherwise nothing |
| DecisionOutcomes.RejectionLeaves | internal/approval/service.go:254-311 | over every state with the incident a rejection denies the action and appends one refusing record with the caller's name and the time, whatever becomes of the refresh |
| DecisionOutcomes.EvaluationLeaves | internal/approval/service.go:108-180 | for a proposed incident every evaluated action awaits approval if and only if the switch is off and the catalog permits it, and is denied otherwise; the saved decisions say the same, other rows stay, and the incident goes where its actions call for |
| DecisionOutcomes.TriageLeaves | internal/incident/service.go:304-497 | triage of a detected or triaging incident stores the generated actions and escalates the incident if all of them are invalid; otherwise the valid ones are evaluated under an action-proposed incident; in any other state it fails without a trace |
| DecisionOutcomes.DecidingRule | internal/policy/evaluator.go:60-124 | which rule decides on an action in scope, and how, from its catalog entry and topology, each rule if and only if its check is the first to fail |
| DecisionOutcomes.RefusingRule | internal/policy/evaluator.go:25-58 | an unknown action, the kill switch, a foreign environment and a foreign target are denied in that order |
| AdmissionOutcomes.ReachesClaimIff | internal/execution/service.go:238-320 | over every state a call reaches its claim if and only if the catalog entry exists, is executable and not high-risk, no record blocks the action and attempts are left, it is approved under the newest approving record, unexpired and for this digest and rule, or allowed and not of medium risk, the switch is off, the incident and target are in scope and all evidence is recent; otherwise it fails without a trace |
| SettlementOutcomes.DispatchesIff | internal/execution/service.go:227-429 | over every state the call dispatches if and only if its action is admissible, has no record and its target is idle; it then makes n + 1 calls, all but the last of which asked for a retry, and leaves the final record, statuses and log of the last answer |
| SettlementOutcomes.DispatchEnds | internal/execution/service.go:487-508 | from any attempt on, the calls stop at the first answer that asks for no retry or at the limit, and the record ends succeeded, timed out or failed as that answer says |
| SettlementOutcomes.RecordSettles | internal/execution/service.go:374-426 | after each final record, a timeout included: the row, the action's status and the incident's state, and verification follows a success alone |
| SettlementOutcomes.VerificationLeaves | internal/verification/service.go:187-367 | in catalog fields: the rollback is called if and only if the verdict is a failure, the entry supports rollback by a key that is in the catalog and executable, a service is configured and the started record can be saved; the incident ends rolled back if and only if, besides, the call succeeds and no write fails; the whole final database and log are given |
| SettlementOutcomes.RecoveryLeaves | internal/execution/service.go:139-225 | what each answer of the adapter makes of a started execution, its action and incident |
| Recovery.RestartsConverge | internal/execution/service.go:139-225 | a recovery that returns leaves no started execution, one that fails has reduced their number |
| Recovery.RecoverySettlesAll | internal/execution/service.go:167-217 | when every started execution's incident is executing and none is shared, one call settles all of them with the right record, action and incident outcome and touches no other row |
| Recovery.OrderlyIsIndependent | internal/execution/service.go:139-166 | in a state that satisfies the invariant, started executions whose incidents are executing and not shared, with fresh rollback ids, meet what the lemmas on recovery ask for |
| Recovery.StartupSettlesAll | internal/execution/service.go:139-225 | so after any run a startup settles every started execution and touches no other row |
| Recovery.SecondRecoveryIsIdle | internal/execution/service.go:144-147 | after such a recovery the next one finds nothing |
| Recovery.OnlyStartedIsRecovered | internal/execution/service.go:144-217 | an incident executing at boot is moved on by recovery if and only if one of its executions is still started |
| Recovery.CrashAfterSaveIsNotRepaired | internal/execution/service.go:374-414 | from every state of a run in which a call has saved its final record but not yet moved its incident, a crash, a boot and a recovery lead back to serving with no started execution and the incident still executing |
| Unrepaired.CrashLeavesIncidentExecuting | internal/execution/service.go:374-414 | a run from an empty store through triage, approvals, claim, dispatch, a crash after the succeeded record was saved, a boot and a recovery, to serving with no started execution and the incident still executing |
| Recovery.RecoveryIsARun | cmd/server/main.go:152-157 | the recovery computed here is a run of the system from boot to serving, or to a stopped process |
| RemediationService.Service.ExecuteAction | internal/execution/service.go:227-429 | leaves exactly what the protocol's execution thread leaves alone; dispatches if the initiator is named, the row exists, its action is admissible and unrecorded and its target idle, and otherwise answers an error and leaves no trace |
| RemediationService.Service.Admit | internal/execution/service.go:253-320 | the checks before the claim, from history to evidence, pass exactly when the thread reaches its claim, with the same certificate; that is, exactly for admissible actions |
| RemediationService.Service.CheckHistory | internal/execution/service.go:252-277 | true if and only if no record of the action is started, succeeded or younger than the cooldown of its entry, or else of the service, and fewer than the attempt limit exist |
| RemediationService.Service.FindDuplicate | internal/execution/service.go:549-563 | true if and only if a record is started, succeeded or younger than the cooldown |
| RemediationService.Service.NewestApproval | internal/execution/service.go:440-454 | scanning backwards, the first approving record alone decides |
| RemediationService.ValidateEvidenceFreshness | internal/execution/service.go:457-485 | true if and only if there are references and the last item with each id is timestamped, recent and not marked incomplete |
| RemediationService.Service.ExecuteWithRetry | internal/execution/service.go:487-508 | between one and retries + 1 equal calls, another one only after a retryable error, the last answer is the result, and the thread ends its dispatch likewise |
| RemediationService.Service.Settle | internal/execution/service.go:374-426 | record, status, incident and verification as the thread does them, aborting at the first failing write |
| RemediationService.Service.RecoverStartedExecutions | internal/execution/service.go:139-225 | equals reconciling some listing of the started executions one after the other; the count is their number, or 0 on error |
| RemediationService.Service.VerifyExecution | internal/verification/service.go:187-367 | leaves what the verification thread leaves; from a verifying incident that is, in catalog and row fields, the ending of SettlementOutcomes.VerificationLeaves, with the second save of the result after a rollback |
| RemediationService.Service.RollbackAction | internal/execution/rollback_service.go:57-134 | nothing without an executable catalog entry under the rollback key; else started record, one dispatch, final record and status; succeeds if and only if the adapter does and none of these writes fails |
| ApprovalService.Service.ApproveAction | internal/approval/service.go:182-252 | refused without a trace unless a named operator decides an awaiting action; a success stores one record with the caller's name, the digest of the stored action under the saved rule, and an expiry 900 seconds on; anything else changes nothing |
| ApprovalService.Service.RejectAction | internal/approval/service.go:254-311 | the same for a rejection with the refresh that follows it; the denial and the record in the caller's name are stored whenever anything is |
| ApprovalService.Service.NextState | internal/approval/service.go:330-345 | an approved or allowed action beats an awaiting one beats none |
| ApprovalService.Service.EvaluateActions | internal/approval/service.go:108-180 | one status write per evaluable action, then all decisions at once, then the refresh, as the evaluation thread does them; for a proposed incident every evaluable action ends awaiting approval if it may be put up and denied otherwise |
| ApprovalService.Service.SetKillSwitch | internal/approval/service.go:313-324 | a switch that cannot be stored is left on; a stored one is the setting the next start reads, whatever is configured |
| Policy.EvaluateGatesEverything | internal/policy/evaluator.go:25-124 | for any catalog no action is allowed outright, and it is put up for approval if and only if it is approvable and the kill switch is off |
| StateMachine.Predecessors | internal/incident/statemachine.go:5-66 | the table read backwards: for every state exactly the states it is reached from |
| StateMachine.RankBoundsPaths | internal/incident/statemachine.go:5-66 | no path through the table is longer than the rank of its start |
| StateMachine.RankIsReached | internal/incident/statemachine.go:5-66 | from every state a path of exactly that length leads to closed |
| StateMachine.TerminalIsAbsorbing | internal/incident/service.go:547-554 | the table never leads out of the terminal states |
| Digest.UnambiguousIff | internal/domain/approval.go:9-16 | NUL-joined parts are determined by the joined text if and only if none contains a NUL |
| Digest.DigestBindsAction | internal/domain/approval.go:9-16 | under an injective hash and NUL-free fields, equal digests mean equal id, type, target, parameters, risk and trimmed rule, and conversely |
| Digest.NulInFieldCollides | internal/domain/approval.go:10-13 | two actions with different targets and the same digest |
| Digest.TrimSpaceSplits | internal/domain/approval.go:9-16 | trimming takes the white space at both ends, all of it, and nothing else |
| Domain.KeyTextIsInjective | internal/execution/service.go:251 | no two operations, of any kind or action, share an idempotency key |
| JobQueue.NextKeeps | internal/storage/postgres.go:204-289 | every table step and worker step keeps the queue's invariant |
| JobQueue.EffectiveWritesAreFenced | internal/storage/postgres.go:233-270 | in every reachable state a worker's completion or failure takes effect if and only if it comes from the job's most recent claim, and then its attempt count is the stored one |
| JobQueue.OneEffectiveWriter | internal/workflow/runner.go:48-80 | at most one worker can still write to a job; the others hold superseded claims |
| JobQueue.RowsAreConsistent | internal/workflow/runner.go:73-77 | attempts never pass the limit, a queued job has some left, a dead letter has none, dedup keys are unique |
| JobQueue.NeverClaimableIff | internal/storage/postgres.go:208-210 | an unfinished job can never be claimed again if and only if it runs on its last attempt |
| JobQueue.StrandedWhen | internal/workflow/runner.go:56-79 | a step strands a job if and only if it is a crash during the last attempt, an unanswered completion or failure by its holder then, or an unanswered claim that begins the last attempt |
| JobQueue.StrandedForever | internal/storage/postgres.go:272-289 | no claim, completion, failure, recovery or other step ever changes a stranded row |
| JobQueue.ChangeableIff | internal/storage/postgres.go:204-289 | in every reachable state some continuation changes an unfinished job if and only if it is not stranded |
| JobQueue.BackoffBound | internal/workflow/runner.go:73-75 | a job of n attempts whose claims all ended in FailJob is dead-lettered at least (n-1)n(2n-1)/6 seconds after its first failure |
| JobRunner.JobStore.ClaimJob | internal/storage/postgres.go:204-231 | leases the earliest row by availability and creation time among those that are queued or whose lease ran out, due, and with attempts left; counts the attempt; none only if there is none |
| JobRunner.JobStore.CompleteJob | internal/storage/postgres.go:233-248 | writes only for the lease owner of a running row, and says so |
| JobRunner.JobStore.FailJob | internal/storage/postgres.go:250-270 | requeues at the retry time or dead-letters, only for the lease owner of a running row |
| JobRunner.JobStore.EnqueueJob | internal/storage/postgres.go:167-174 | inserts unless the dedup key is taken |
| JobRunner.JobStore.RecoverTriageJob | internal/storage/postgres.go:272-289 | for an unknown key a queued row with three attempts, available now; for a dead letter no attempts used and available now; nothing otherwise |
| JobRunner.JobStore.RecoverTriageJobs | internal/storage/postgres.go:272-289 | every triaging incident's key gets a queued row or, if its job is dead, a fresh start; no other row changes and the count is that of the rows written |
| JobRunner.Round | internal/workflow/runner.go:56-78 | one round alone: the claimed row ends succeeded, queued n * n seconds from now after its n-th attempt, or dead exactly when its attempts are used up |
| Verification.Observe | internal/verification/service.go:418-443 | stops at the end of the first run of n passing samples, at the deadline or when telemetry is lost, recovers if and only if the samples contain such a run, surely when the first n samples find the service healthy with a smaller backlog and no more errors, and takes boundedly many |
| Verification.Evaluate | internal/verification/service.go:384-470 | with more than one required observation only what the protocol lets it report, so never a failure; a success only after a stable recovery and always after n recovered samples from a worker stall; at most 1 + ceil(timeout/interval) samples |
| Verification.PassesIff | internal/verification/service.go:472-474 | a sample passes if and only if its mode is healthy, its worker healthy, its backlog smaller and its error rate not higher |
| Verification.JudgeIff | internal/verification/service.go:444-469 | when exactly a comparison is a success or a failure, told from the two snapshots |
| Verification.PassingIsNotFailure | internal/verification/service.go:472-474 | a passing sample is never judged a failure |
| Verification.DeriveBaseline | internal/verification/service.go:570-624 | each signal is the latest one in the evidence; none without a metric; the mode stands in for a missing health signal |
| Verification.BaselineSignals | internal/verification/service.go:570-624 | each signal of the baseline is that of the last item that has it, or its default |
| Verification.BaselineIff | internal/verification/service.go:570-624 | there is no baseline if and only if no item has an error rate, latency or backlog; it is as old as the last item with a mode |
| Verification.LatestIsLast | internal/verification/service.go:575-611 | the latest value is that of the last item that has one |
| Limiter.SlidingLimiter.Compact | internal/http/security.go:197-202 | the in-place loop leaves the filtered sequence; unread entries are intact at every turn |
| Limiter.SlidingLimiter.AllowWindow | internal/http/security.go:189-208 | admits if and only if fewer than limit admissions are in the window, which is 60 seconds unless positive, remembers exactly those and the new one, and leaves other keys alone |
| Limiter.SlidingLimiter.Allow | internal/http/security.go:39-55 | admits if and only if fewer than five admissions are in the last 300 seconds |
| Limiter.Replay | internal/http/security.go:189-208 | any calls on a fresh limiter are answered as the run semantics says |
| Limiter.RemembersAdmissions | internal/http/security.go:195-207 | over ordered runs what is remembered in the window is what was admitted in it |
| Limiter.RejectionIsJustified | internal/http/security.go:203-206 | a call is rejected if and only if limit calls with its key were admitted in the window before it |
| Limiter.AtMostLimitPerWindow | internal/http/security.go:189-208 | for every moment t of an ordered run at most limit calls with a key are admitted in (t - window, t] |
| RedisWorker.NextKeeps | internal/workload/workload.go:46-86 | every command of every worker, and a kill before or after it, keeps the invariant |
| RedisWorker.StreamConserved | internal/workload/workload.go:67-83 | deleted entries were processed; with unique job ids entries added are at most stream plus processed; the counter lags the processed set by exactly the workers caught before the increment |
| RedisWorker.DeliveredToOne | internal/workload/workload.go:58 | two workers never hold one entry |
| RedisWorker.AbandonedWhen | internal/workload/workload.go:71-74 | a step abandons an entry if and only if it kills its holder or is that holder's work under the fail fault |
| RedisWorker.AbandonedAreCounted | internal/workload/workload.go:71-74 | in every reachable state the abandoned entries are as many as the error counter and the workers killed with an entry together |
| RedisWorker.DeliverableIff | internal/workload/workload.go:58 | in every reachable state an entry of the stream can be delivered later if and only if it never was; otherwise a worker holds it or it is abandoned |
| RedisWorker.AbandonedForever | internal/workload/workload.go:71-74 | an entry delivered and held by nobody stays in the stream and is never delivered again |
| RedisWorker.Redis.Round | internal/workload/workload.go:49-84 | one undisturbed loop body: processed, counted once per job, deleted; only delivered under the fail fault; nothing when paused, stalled or empty |
| RedisWorker.IdleWhilePaused | internal/workload/workload.go:52-57 | while the consumer is paused or stalled a polling worker takes up nothing, whatever the others do |
| RedisWorker.RoundIsARun | internal/workload/workload.go:49-84 | what one loop body does to the store is what the commands of a polling worker do to it when nothing comes between them |
| Operations.Supervisor.Post | internal/workload/workload.go:176-213 | a stored id is answered 200 with its result and nothing happens; a request without id, for another target or of an unknown operation is refused with 400; anything else has its one effect on child, generation, fault and pause flag, stored, and is answered 200 or 500 |
| Operations.Supervisor.Handle | internal/workload/workload.go:163-213 | a wrong token, method or body is answered 401, 405 or 400 in that order and changes nothing; anything else is served |
| Operations.Supervisor.Restart | internal/workload/workload.go:131-140 | the child is the new process if it starts and none otherwise, whoever ran before; the fault is cleared, a new generation counted if it starts |
| Operations.Supervisor.StartWorker | internal/workload/workload.go:101-129 | does nothing while a child runs |
| Operations.RepeatedRequest | internal/workload/workload.go:187-191 | a second request of an id changes nothing and repeats the outcome with 200, even of a failure |
| Operations.RetriedFresh | internal/execution/service.go:487-508 | for any lost or late exchanges of a new request the result stored is that of the first exchange that reached the supervisor, success implies a stored result, and success hides a failure if and only if that exchange asked for a retry and a later one is answered |
| Operations.RetriedRefused | internal/execution/control_adapter.go:29-62 | a request that the supervisor refuses changes nothing, and the answer is a permanent failure if and only if the request is refused and a response arrives |
| Operations.ExecuteWithRetry | internal/execution/control_adapter.go:29-62 | whatever exchanges are lost or time out, one effect per id at most, success only for a stored result, and success hides a failed operation exactly as above; a permanent failure if and only if the request is refused and a response arrives; over a reliable network success is reported if and only if the operation succeeded or a retry was allowed |
| Operations.ApprovedAndAtMostOnce | internal/workload/workload.go:186-212 | over every run of the protocol, with any losses and retries, an action changes the workload at most once and only after its approval by a named operator |
| QueryRenderer.EscapeIsOnePass | internal/observability/query_renderer.go:29-35 | four successive replacements equal one map over the characters |
| QueryRenderer.EscapeRoundTrip | internal/observability/query_renderer.go:29-35 | an unescaper is a left inverse on every string, and the output can stand between quotes: no raw line break, no open quote or escape |
| QueryRenderer.Render | internal/observability/query_renderer.go:15-27 | for any template and labels the text is the trimmed one of replacing every escaped value once, in some order of the fields |
| QueryOrder.ReplaceOne | internal/observability/query_renderer.go:22-26 | where a field's placeholders are found where they stand, one replacement replaces those and nothing else, whichever were replaced before |
| QueryOrder.CleanTemplates | internal/observability/query_renderer.go:15-27 | in a template without stray double braces and with harmless values for the fields it mentions, every order gives the text with all placeholders replaced at once |
| QueryOrder.AllTemplates | internal/observability/query_renderer.go:15-27 | with foreign values the same holds for every template, read from the left |
| QueryOrderIff.HarmlessIff | internal/observability/query_renderer.go:15-36 | a label never makes the order matter in templates without stray double braces, whatever harmless labels the other fields have, if and only if it is harmless |
| QueryOrderIff.ForeignIff | internal/observability/query_renderer.go:15-36 | a label never makes the order matter in any template, whatever foreign labels the other fields have, if and only if it is foreign |
| QueryOrderIff.EscapingKeeps | internal/observability/query_renderer.go:29-35 | escaping makes no label harmless or foreign that was not, and none harmful that was |
| QueryOrderIff.UsualIsHarmless | internal/observability/query_renderer.go:22-26 | every label that is not empty and has no opening brace is harmless |
| QueryOrderIff.EmptyValueDependsOnOrder | internal/observability/query_renderer.go:22-26 | a template and an empty value for which two orders give different texts |
| QueryOrderIff.BracedValueDependsOnOrder | internal/observability/query_renderer.go:22-26 | the same for a value that holds another placeholder |
| Intake.ResolvedAlertMoves | internal/incident/service.go:556-564 | a resolved alert resolves a verifying incident, closes an early one, and leaves it alone between approval and verification |
| Intake.Service.AcceptGrafanaWebhook | internal/incident/service.go:159-276 | the webhook acts on the alert's latest incident only: deduplicates, moves along the table, or opens a new one, exactly when none is open, with its job when triage is configured; the incident told is the new one if one is opened and the open one otherwise; a failing audit event fails the call, and then nothing or all of this is stored |
| Intake.AtMostOneOpen | internal/incident/service.go:166-210 | over any sequence of webhooks, legal moves and claims on open incidents an alert has at most one open incident, and the lookup finds it |
| Intake.ClaimKeepsOneOpenIff | internal/storage/memory.go:513-517 | a claim keeps that if and only if its incident is the alert's newest and no other one is open |

## Left out

- SHA-256: the digest is its preimage, which assumes no collisions; `Digest.DigestBindsAction` speaks of any injective hash.
- SQL text, row locking and isolation levels: each transaction is one atomic step, with unique ids and dedup keys; rows skipped because they are locked are not modelled, so `JobRunner.JobStore.ClaimJob` serves the earliest row while `JobQueue` lets a worker claim any claimable one.
- Audit events, telemetry and logging: only their failure is kept, as an abort of the call after any step; `Intake.Service.AcceptGrafanaWebhook` takes it as an argument.
- Triage evidence, language-model output and documents: a triage proposes arbitrary new actions. The evidence items of an incident are an arbitrary function of time, so within one reading of the clock they do not change, and the incident and its evidence are read in one step before the claim.
- The clock inside one uninterrupted call: `Completion.Finish` and the service methods read one time; in the interleaving system time passes between steps.
- Which store calls fail inside the service methods: `MemoryStore` never fails and failing writes are the abort steps of the protocol; only the writes of a rollback, whose failure the verification handles, fail by choice there too.
- Order of listed approvals by creation time: they are read in the order of insertion, which is the same because an action has at most one (`ProtocolTheorems.AtMostOneExecution`).
- MemoryStore.MemoryStore.SaveCandidateActions: a batch has distinct ids, belongs to existing incidents and keeps known ids with their incident; the other methods are specified for stores whose executions and rollbacks still have their actions.
- Verification evidence texts: the result row keeps only the verdict, so the second save of a result after a rollback writes the same row.
- Replica count, pause flag and last deployment of a snapshot: no check reads them.
- Verification.Evaluate: telemetry values are exact numbers, floating-point NaN is not modelled.
- Label normalisation at intake; intake and escalation appear in the protocol as any compare-and-swap along the state table.
- JobQueue.StepTo: RecoverTriageJobs is taken incident by incident there, so more may happen between two of its rows than in one statement, which `JobRunner.JobStore.RecoverTriageJobs` models whole; one process with distinct serial workers at a time is assumed.
- RedisWorker.StepTo: Redis errors and the expiry of the set-if-absent keys after a day are not modelled.
- Operations.ExecuteWithRetry: assumes that requests of one id do not overlap, that the supervisor stays up during a request and stores its result, and that results do not expire.
- Limiter.AtMostLimitPerWindow: calls of one key come in non-decreasing time order, as under the mutex with a monotonic clock.
- Slice capacity growth in `Limiter`: a full slice grows to a larger array of a fixed rule instead of the runtime's.
- HTTP routing, sessions, cookies, the web console, language-model and telemetry clients, connection profiles, configuration, encryption and password hashing.
