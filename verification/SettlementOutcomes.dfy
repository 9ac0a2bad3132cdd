/** What follows a dispatch when nobody steps in between: the record, the action, the incident, the verdict
    and the rollback after every answer of the adapter, told from the catalog entry and the rows alone. */
module SettlementOutcomes {
  import opened Domain
  import opened StateMachine
  import opened Tables
  import opened Protocol
  import opened ProtocolInvariant
  import opened ProtocolHistory
  import opened Completion
  import opened Recovery
  import opened AdmissionOutcomes

  // ----- Verification and rollback

  /** The entry names an operation that undoes the action, that operation may be carried out, and somebody
      carries it out. */
  predicate Undoable(cfg: Config, action: Action) {
    && cfg.rollsBack && action.actionType in cfg.catalog
    && var d := cfg.catalog[action.actionType];
       d.supportsRollback && d.rollbackKey != "" && d.rollbackKey in cfg.catalog && cfg.catalog[d.rollbackKey].executable
  }

  /** The ending of a verification, in the rows. */
  ghost predicate Verified(cfg: Config, w: World, action: Action, execution: Execution, oracle: Oracle, ending: Ending)
    requires action.id in w.db.actions && action.incident in w.db.incidents
  {
    var a, i := action.id, action.incident;
    var success := oracle.verdict(a) == Success;
    var failed := oracle.verdict(a) == Failure && cfg.required <= 1;
    var dispatched := failed && Undoable(cfg, action) && oracle.rollbackStore(a) != StartFault;
    var undone := dispatched && oracle.rollback(a) == AdapterOk && oracle.rollbackStore(a) == NoFault;
    && ending.ok && ending.world.now == w.now && ending.world.killed == w.killed
    && ending.world.log == w.log + (if dispatched then [RollbackCall(a)] else [])
    && ending.world.db == w.db.(
         incidents := w.db.incidents[i := w.db.incidents[i].(state := if success then Resolved else if undone then RolledBack else Escalated)],
         actions := w.db.actions[a := w.db.actions[a].(status := if success then Succeeded else if undone then ActionRolledBack else Failed)],
         verdicts := w.db.verdicts[execution.id := Verification(execution.id, if success then Success else if failed then Failure else Inconclusive)],
         rollbacks := if !dispatched then w.db.rollbacks
                      else w.db.rollbacks[oracle.rollbackId(a) :=
                        Rollback(oracle.rollbackId(a), a, cfg.catalog[action.actionType].rollbackKey, "system:auto-rollback",
                                 if oracle.rollbackStore(a) == EndFault then RollbackStarted
                                 else if oracle.rollback(a) == AdapterOk then RollbackSucceeded else RollbackFailed)])
  }

  /** From a verifying incident the rollback is dispatched exactly if the verification failed, which takes a
      single required observation, the action is undoable and the started record can be saved. The incident
      is rolled back exactly if, besides, the adapter undoes the action and the store makes every write; it
      is resolved exactly after a success, and escalated otherwise. */
  lemma VerificationLeaves(cfg: Config, w: World, action: Action, execution: Execution, oracle: Oracle)
    requires action.id in w.db.actions && action.incident in w.db.incidents && execution.id in w.db.executions
    requires w.db.actions[action.id].status == Succeeded && w.db.incidents[action.incident].state == VerifyingAction
    requires oracle.rollbackId(action.id) !in w.db.rollbacks
    ensures Verified(cfg, w, action, execution, oracle, Finish(cfg, w, Verifying(action, execution), oracle))
  {
    hide Finish;
    VerificationIsTotal(cfg, w, action, execution, oracle);
    VerificationKeepsClock(cfg, w, action, execution, oracle);
    assert w.log + [] == w.log;
  }

  lemma {:induction false} FinishKeepsClock(cfg: Config, w: World, thread: Thread, oracle: Oracle)
    ensures var ending := Finish(cfg, w, thread, oracle); ending.world.now == w.now && ending.world.killed == w.killed
    ensures var ending := Finish(cfg, w, thread, oracle); |w.log| <= |ending.world.log| && ending.world.log[..|w.log|] == w.log
    decreases Stage(thread), Remaining(cfg, thread)
  {
    hide ThreadStep, Logs;
    var choice := ChoiceOf(cfg, oracle, thread);
    var outcome := ThreadStep(cfg, w, thread, choice);
    StepKeepsClock(cfg, w, thread, choice);
    LogPrefix(cfg, w, thread, choice);
    if outcome.Running? {
      Descends(cfg, w, thread, choice);
      FinishKeepsClock(cfg, outcome.world, outcome.thread, oracle);
      var log := Finish(cfg, w, thread, oracle).world.log;
      assert log[..|w.log|] == log[..|outcome.world.log|][..|w.log|];
    }
  }

  lemma LogPrefix(cfg: Config, w: World, thread: Thread, choice: Choice)
    ensures var outcome := ThreadStep(cfg, w, thread, choice);
            !outcome.Blocked? ==> |w.log| <= |outcome.world.log| && outcome.world.log[..|w.log|] == w.log
  {
    hide ThreadStep;
    StepLogs(cfg, w, thread, choice);
  }

  lemma StepKeepsClock(cfg: Config, w: World, thread: Thread, choice: Choice)
    ensures var outcome := ThreadStep(cfg, w, thread, choice);
            !outcome.Blocked? ==> outcome.world.now == w.now && outcome.world.killed == w.killed
  {
    hide Transition, UpdateCandidateActionStatus, DecideApproval, FreshActions, Evaluable, RefreshTarget, ApprovalRecord, RejectionRecord,
         SaveCandidateActions, SavePolicyDecisions, Duplicate, Attempts, CooldownOf, InScope, ClaimExecution, Executable,
         MayExecute, ValidApproval, HasRollbackPlan, SaveExecutionRecord, SaveVerificationResult, SaveRollbackRecord;
  }

  lemma VerificationKeepsClock(cfg: Config, w: World, action: Action, execution: Execution, oracle: Oracle)
    ensures var ending := Finish(cfg, w, Verifying(action, execution), oracle); ending.world.now == w.now && ending.world.killed == w.killed
  {
    FinishKeepsClock(cfg, w, Verifying(action, execution), oracle);
  }

  // ----- The final record, the action and the incident

  /** A final record settles its action and incident: a success is verified, if a verifier is configured; an
      inconclusive reconciliation escalates; every other end, a timeout too, fails the remediation. */
  lemma RecordSettles(cfg: Config, w: World, action: Action, record: Execution, oracle: Oracle)
    requires action.id in w.db.actions && action.incident in w.db.incidents && record.action == action.id
    requires w.db.incidents[action.incident].state == ExecutingAction && record.status != ExecStarted
    ensures var a, i := action.id, action.incident;
            var w' := w.(db := w.db.(
              executions := w.db.executions[record.id := record],
              actions := w.db.actions[a := w.db.actions[a].(status := if record.status == ExecSucceeded then Succeeded else Failed)],
              incidents := w.db.incidents[i := w.db.incidents[i].(state :=
                if record.status == ExecSucceeded then VerifyingAction
                else if record.status == ExecInconclusive then Escalated
                else FailedRemediation)]));
            Finish(cfg, w, Saving(action, record, ExecutingAction), oracle)
            == if record.status == ExecSucceeded && cfg.verifies then Finish(cfg, w', Verifying(action, record), oracle) else Ending(w', true)
  {
    hide Finish;
    FinishSave(cfg, w, action, record, ExecutingAction, oracle);
    var w1 := w.(db := w.db.(executions := w.db.executions[record.id := record]));
    var w2 := w1.(db := SetStatus(w1.db, action.id, if record.status == ExecSucceeded then Succeeded else Failed));
    AtSettling(cfg, w2, action, record, ExecutingAction, oracle);
  }

  // ----- The adapter's answers

  /** The dispatch stops at the first answer that allows no further attempt, after one call per attempt. */
  lemma {:induction false} DispatchEnds(cfg: Config, w: World, action: Action, execution: Execution, certificate: Certificate, attempt: nat, oracle: Oracle)
    returns (n: nat)
    requires attempt <= cfg.retries
    ensures attempt <= n <= cfg.retries
    ensures forall k :: attempt <= k < n ==> oracle.execute(action.id, k) == AdapterRetryable
    ensures oracle.execute(action.id, n) != AdapterRetryable || n == cfg.retries
    ensures var answer := oracle.execute(action.id, n);
            Finish(cfg, w, Dispatching(action, execution, certificate, attempt), oracle)
            == Finish(cfg, w.(log := w.log + seq(n - attempt + 1, _ => ExecuteCall(action, execution.id, certificate))),
                      Saving(action, execution.(finishedAt := w.now, status := if answer == AdapterOk then ExecSucceeded
                                                                               else if answer == AdapterTimeout then ExecTimedOut
                                                                               else ExecFailed), ExecutingAction), oracle)
    decreases cfg.retries - attempt
  {
    hide Finish;
    var call := ExecuteCall(action, execution.id, certificate);
    AtDispatching(cfg, w, action, execution, certificate, attempt, oracle);
    if oracle.execute(action.id, attempt) == AdapterRetryable && attempt < cfg.retries {
      var w1 := w.(log := w.log + [call]);
      n := DispatchEnds(cfg, w1, action, execution, certificate, attempt + 1, oracle);
      assert w.log + [call] + seq(n - attempt, _ => call) == w.log + seq(n - attempt + 1, _ => call);
    } else {
      n := attempt;
      assert [call] == seq(1, _ => call);
    }
  }

  // ----- The whole call

  /** No record of the action and no started execution on its target. */
  ghost predicate Idle(db: Database, action: Action) {
    forall r :: r in db.executions ==> Elsewhere(db, db.executions[r], action)
  }

  predicate Elsewhere(db: Database, e: Execution, action: Action) {
    && e.action != action.id
    && !(e.status == ExecStarted && e.action in db.actions && db.actions[e.action].target == action.target)
  }

  lemma IdleIff(db: Database, action: Action)
    ensures Idle(db, action) <==> !Recorded(db, action.id) && !TargetBusy(db, action.target)
  {
    if r :| r in db.executions && !Elsewhere(db, db.executions[r], action) {
      assert db.executions[r].action == action.id || StartedOn(db, r, action.target);
    }
    if r :| r in db.executions && db.executions[r].action == action.id {
      assert !Elsewhere(db, db.executions[r], action);
    }
    if r :| r in db.executions && StartedOn(db, r, action.target) {
      assert !Elsewhere(db, db.executions[r], action);
    }
  }

  /** The claim, in the rows. */
  lemma ClaimLeaves(cfg: Config, w: World, action: Action, initiator: string, certificate: Certificate, oracle: Oracle)
    requires action.id in w.db.actions && w.db.actions[action.id] == action && oracle.executionId(action.id) !in w.db.executions
    requires Admissible(cfg, w, action)
    ensures var a, i, id := action.id, action.incident, oracle.executionId(action.id);
            var record := Execution(id, a, ExecuteKey(a), initiator, ExecStarted, w.now, w.now);
            Finish(cfg, w, ExecReady(action, initiator, certificate), oracle)
            == if !Idle(w.db, action) then Ending(w, false)
               else Finish(cfg, w.(db := w.db.(executions := w.db.executions[id := record],
                                               actions := w.db.actions[a := action.(status := Executing)],
                                               incidents := w.db.incidents[i := w.db.incidents[i].(state := ExecutingAction)])),
                           Dispatching(action, record, certificate, 0), oracle)
  {
    hide Finish, Unspent, Evidenced, Idle, Recorded, TargetBusy, Standing;
    AtExecReady(cfg, w, action, initiator, certificate, oracle);
    IdleIff(w.db, action);
  }

  /** ExecuteAction alone: the adapter is called exactly if the action is admissible, has no record and its
      target is idle. It is called with the stored action, a new record and the standing approval, once per
      attempt; otherwise nothing is left behind. */
  lemma DispatchesIff(cfg: Config, w: World, action: Action, initiator: string, oracle: Oracle) returns (n: nat, certificate: Certificate)
    requires action.id in w.db.actions && w.db.actions[action.id] == action && oracle.executionId(action.id) !in w.db.executions
    ensures var ending := Finish(cfg, w, ExecRead(action, initiator), oracle);
            && (|ending.world.log| > |w.log| <==> Admissible(cfg, w, action) && Idle(w.db, action))
            && (!(Admissible(cfg, w, action) && Idle(w.db, action)) ==> ending == Ending(w, false))
            && (Admissible(cfg, w, action) && Idle(w.db, action) ==>
                  && n <= cfg.retries && ClaimsWith(w, action, certificate)
                  && (forall k :: 0 <= k < n ==> oracle.execute(action.id, k) == AdapterRetryable)
                  && (oracle.execute(action.id, n) != AdapterRetryable || n == cfg.retries)
                  && Executed(cfg, w, action, initiator, certificate, n, oracle, ending))
  {
    hide Finish, Enabled, Unspent, Permitted, Evidenced, Idle, ClaimsWith, Executed;
    certificate := ReachesClaimIff(cfg, w, action, initiator, oracle);
    n := 0;
    if Admissible(cfg, w, action) {
      ClaimLeaves(cfg, w, action, initiator, certificate, oracle);
      if Idle(w.db, action) {
        n := ClaimedLeaves(cfg, w, action, initiator, certificate, oracle);
      }
    }
  }

  /** What n + 1 calls leave, the last of them being answered. */
  ghost predicate Executed(cfg: Config, w: World, action: Action, initiator: string, certificate: Certificate, n: nat, oracle: Oracle, ending: Ending)
    requires action.incident in w.db.incidents
  {
    var a, i, id := action.id, action.incident, oracle.executionId(action.id);
    var answer := oracle.execute(a, n);
    var record := Execution(id, a, ExecuteKey(a), initiator,
                            if answer == AdapterOk then ExecSucceeded else if answer == AdapterTimeout then ExecTimedOut else ExecFailed,
                            w.now, w.now);
    var w' := w.(log := w.log + seq(n + 1, _ => ExecuteCall(action, id, certificate)),
                 db := w.db.(executions := w.db.executions[id := record],
                             actions := w.db.actions[a := action.(status := if answer == AdapterOk then Succeeded else Failed)],
                             incidents := w.db.incidents[i := w.db.incidents[i].(state := if answer == AdapterOk then VerifyingAction else FailedRemediation)]));
    ending == if answer == AdapterOk && cfg.verifies then Finish(cfg, w', Verifying(action, record), oracle) else Ending(w', true)
  }

  lemma ClaimedLeaves(cfg: Config, w: World, action: Action, initiator: string, certificate: Certificate, oracle: Oracle) returns (n: nat)
    requires action.id in w.db.actions && w.db.actions[action.id] == action && action.incident in w.db.incidents
    ensures n <= cfg.retries && forall k :: 0 <= k < n ==> oracle.execute(action.id, k) == AdapterRetryable
    ensures oracle.execute(action.id, n) != AdapterRetryable || n == cfg.retries
    ensures var a, i, id := action.id, action.incident, oracle.executionId(action.id);
            var record := Execution(id, a, ExecuteKey(a), initiator, ExecStarted, w.now, w.now);
            var w1 := w.(db := w.db.(executions := w.db.executions[id := record],
                                     actions := w.db.actions[a := action.(status := Executing)],
                                     incidents := w.db.incidents[i := w.db.incidents[i].(state := ExecutingAction)]));
            var ending := Finish(cfg, w1, Dispatching(action, record, certificate, 0), oracle);
            Executed(cfg, w, action, initiator, certificate, n, oracle, ending) && |ending.world.log| > |w.log|
  {
    hide Finish;
    var a, i, id := action.id, action.incident, oracle.executionId(action.id);
    var started := Execution(id, a, ExecuteKey(a), initiator, ExecStarted, w.now, w.now);
    var w1 := w.(db := w.db.(executions := w.db.executions[id := started],
                             actions := w.db.actions[a := action.(status := Executing)],
                             incidents := w.db.incidents[i := w.db.incidents[i].(state := ExecutingAction)]));
    n := DispatchEnds(cfg, w1, action, started, certificate, 0, oracle);
    var answer := oracle.execute(a, n);
    var record := started.(status := if answer == AdapterOk then ExecSucceeded else if answer == AdapterTimeout then ExecTimedOut else ExecFailed);
    var w2 := w1.(log := w1.log + seq(n + 1, _ => ExecuteCall(action, id, certificate)));
    RecordSettles(cfg, w2, action, record, oracle);
    FinishKeepsClock(cfg, w2, Saving(action, record, ExecutingAction), oracle);
    OverwrittenTwice(w.db, action, started, record);
  }

  lemma OverwrittenTwice(db: Database, action: Action, first: Execution, second: Execution)
    requires first.id == second.id && action.incident in db.incidents
    ensures db.executions[first.id := first][second.id := second] == db.executions[second.id := second]
    ensures forall s, s' :: db.actions[action.id := action.(status := s)][action.id := action.(status := s')] == db.actions[action.id := action.(status := s')]
    ensures forall s, s' :: var row := db.incidents[action.incident];
                            db.incidents[action.incident := row.(state := s)][action.incident := row.(state := s')]
                            == db.incidents[action.incident := row.(state := s')]
  {
  }

  // ----- Recovery

  /** What recovery makes of one started execution, by what the adapter says about it. */
  lemma RecoveryLeaves(cfg: Config, w: World, execution: Execution, oracle: Oracle)
    requires Recoverable(w.db, execution, oracle)
    ensures var action := w.db.actions[execution.action];
            var a, i, answer := action.id, action.incident, oracle.reconciled(execution.action);
            var succeeded := answer == ReconciledSucceeded;
            var record := execution.(finishedAt := w.now, status := if succeeded then ExecSucceeded
                                                                    else if answer == ReconciledFailed then ExecFailed
                                                                    else ExecInconclusive);
            var w' := w.(db := w.db.(
              executions := w.db.executions[execution.id := record],
              actions := w.db.actions[a := action.(status := if succeeded then Succeeded else Failed)],
              incidents := w.db.incidents[i := w.db.incidents[i].(state := if succeeded then VerifyingAction
                                                                           else if answer == ReconciledFailed then FailedRemediation
                                                                           else Escalated)]));
            RecoverOne(cfg, w, execution, oracle)
            == if succeeded && cfg.verifies then Finish(cfg, w', Verifying(action, record), oracle) else Ending(w', true)
  {
    hide Finish;
    var action := w.db.actions[execution.action];
    var answer := oracle.reconciled(execution.action);
    var record := execution.(finishedAt := w.now, status := if answer == ReconciledSucceeded then ExecSucceeded
                                                            else if answer == ReconciledFailed then ExecFailed
                                                            else ExecInconclusive);
    RecordSettles(cfg, w, action, record, oracle);
  }
}
