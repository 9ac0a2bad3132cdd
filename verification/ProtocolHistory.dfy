/** When approvals were checked: every certificate goes back to an earlier state of the run. */
module ProtocolHistory {
  import opened Domain
  import opened Tables
  import opened Protocol
  import opened ProtocolInvariant
  import opened ProtocolWrites
  import opened ProtocolSteps
  import opened ProtocolRuns
  import opened ProtocolTheorems
  import Digest
  import Policy

  predicate Carries(thread: Thread) {
    thread.ExecCleared? || thread.ExecArmed? || thread.ExecReady? || thread.Dispatching? || thread.Calling?
  }

  predicate HoldsDecision(thread: Thread) {
    thread.ApproveDecided? || thread.ApproveReady? || thread.RejectReady?
  }

  // ----- No approval is from the future

  ghost predicate Dated(w: World) {
    forall a, x :: x in ApprovalsOf(w.db, a) ==> x.createdAt <= w.now
  }

  predicate RecordDated(w: World, thread: Thread) {
    HoldsDecision(thread) ==> thread.record.createdAt <= w.now
  }

  ghost predicate DatedState(s: State) {
    Dated(s.world) && forall t :: t in s.threads ==> RecordDated(s.world, s.threads[t])
  }

  ghost predicate DatedOutcome(outcome: Outcome, now: int) {
    !outcome.Blocked? ==> && outcome.world.now == now && Dated(outcome.world)
                          && (outcome.Running? ==> RecordDated(outcome.world, outcome.thread))
  }

  /** The write stores no other approval than the given one. */
  ghost predicate StoresOnly(db: Database, write: Write, record: Option<Approval>) {
    write.Done? ==> forall a, x :: x in ApprovalsOf(write.db, a) ==> x in ApprovalsOf(db, a) || record == Some(x)
  }

  lemma DecisionStoresOnly(db: Database, i: Id, record: Approval, from: ActionStatus, to: ActionStatus,
                           expected: Option<IncidentState>, next: Option<IncidentState>)
    ensures StoresOnly(db, DecideApproval(db, i, record, from, to, expected, next), Some(record))
  {
  }

  lemma DecisionDated(w: World, i: Id, record: Approval, to: ActionStatus, expected: Option<IncidentState>, next: Option<IncidentState>)
    requires Dated(w) && record.createdAt <= w.now
    ensures var write := DecideApproval(w.db, i, record, Awaiting, to, expected, next);
            write.Done? ==> Dated(w.(db := write.db))
  {
    DecisionStoresOnly(w.db, i, record, Awaiting, to, expected, next);
    var write := DecideApproval(w.db, i, record, Awaiting, to, expected, next);
    if write.Done? {
      hide DecideApproval;
      forall a, x | x in ApprovalsOf(write.db, a) ensures x.createdAt <= w.now {
        assert x in ApprovalsOf(w.db, a) || x == record;
      }
    }
  }

  ghost predicate SameApprovals(db: Database, write: Write) {
    write.Done? ==> write.db.approvals == db.approvals
  }

  lemma WritesKeepApprovals(db: Database)
    ensures forall i, from, to :: SameApprovals(db, Transition(db, i, from, to))
    ensures forall a, status :: SameApprovals(db, UpdateCandidateActionStatus(db, a, status))
    ensures forall r, verdict :: SameApprovals(db, SaveVerificationResult(db, r, verdict))
    ensures forall r :: SameApprovals(db, SaveExecutionRecord(db, r))
    ensures forall r :: SameApprovals(db, SaveRollbackRecord(db, r))
    ensures forall i, a, r :: SameApprovals(db, ClaimExecution(db, i, a, r))
  {
  }

  /** A step that stores no decision. */
  ghost predicate Untouched(w: World, outcome: Outcome) {
    !outcome.Blocked? ==> outcome.world.now == w.now && outcome.world.db.approvals == w.db.approvals
                          && (outcome.Running? ==> !HoldsDecision(outcome.thread))
  }

  lemma LateUntouched(cfg: Config, w: World, thread: Thread, choice: Choice)
    requires (PastClaim(thread) && !Compensation(thread)) || thread.Moving? || thread.Refreshing?
    ensures Untouched(w, ThreadStep(cfg, w, thread, choice))
  {
    hide Transition, UpdateCandidateActionStatus, SaveExecutionRecord, SaveVerificationResult, HasRollbackPlan, RefreshTarget,
         IncidentStateAfter, ActionStatusAfter;
    WritesKeepApprovals(w.db);
    match thread
    case Refreshing(_, _) =>
    case Moving(_, _, _) =>
    case Dispatching(_, _, _, _) =>
    case Calling(_, _, _, _) =>
    case Saving(_, _, _) =>
    case Marking(_, _, _) =>
    case Settling(_, _, _) =>
    case Verifying(_, _) =>
    case Judged(_, _, _, _) =>
    case Concluding(_, _, _, _) =>
    case Unwinding(_, _, _, _) =>
  }

  lemma RollbackUntouched(cfg: Config, w: World, thread: Thread, choice: Choice)
    requires Compensation(thread)
    ensures Untouched(w, ThreadStep(cfg, w, thread, choice))
  {
    hide UpdateCandidateActionStatus, SaveRollbackRecord;
    WritesKeepApprovals(w.db);
  }

  lemma EarlyUntouched(cfg: Config, w: World, thread: Thread, choice: Choice)
    requires thread.TriageRead? || thread.TriageCollected? || thread.TriageProposed? || thread.Evaluating?
    ensures Untouched(w, ThreadStep(cfg, w, thread, choice))
  {
    hide Transition, UpdateCandidateActionStatus, Policy.Evaluate, Evaluable;
    WritesKeepApprovals(w.db);
    if thread.TriageCollected? && choice.Generated? && FreshActions(w.db, thread.subject.id, choice.actions) {
      SaveActionsFrame(w.db, choice.actions);
    }
    if thread.Evaluating? {
      SaveDecisionsFrame(w.db, thread.decided);
    }
  }

  lemma ExecuteUntouched(cfg: Config, w: World, thread: Thread, choice: Choice)
    requires thread.ExecRead? || thread.ExecListed? || thread.ExecDecision? || thread.ExecCleared? || thread.ExecArmed? || thread.ExecReady?
    ensures Untouched(w, ThreadStep(cfg, w, thread, choice))
  {
    hide ClaimExecution, MayExecute, ValidApproval, InScope, Duplicate, Attempts, Executable;
    WritesKeepApprovals(w.db);
  }

  lemma DecisionsDated(cfg: Config, w: World, thread: Thread, choice: Choice)
    requires Dated(w) && RecordDated(w, thread)
    requires thread.ApproveRead? || thread.ApproveDecided? || thread.ApproveReady? || thread.RejectRead? || thread.RejectReady?
    ensures DatedOutcome(ThreadStep(cfg, w, thread, choice), w.now)
  {
    hide Dated, DecideApproval, Digest.ActionApprovalDigest;
    match thread
    case ApproveRead(_, _) =>
    case ApproveDecided(_, _) =>
    case ApproveReady(action, record, from) => DecisionDated(w, action.incident, record, ActionApproved, Some(from), Some(Approved));
    case RejectRead(_, _) =>
    case RejectReady(action, record, _) => DecisionDated(w, action.incident, record, Denied, None, None);
  }

  lemma UntouchedDated(w: World, outcome: Outcome)
    requires Dated(w) && Untouched(w, outcome)
    ensures DatedOutcome(outcome, w.now)
  {
    if !outcome.Blocked? {
      assert forall a :: ApprovalsOf(outcome.world.db, a) == ApprovalsOf(w.db, a);
    }
  }

  lemma StepDated(cfg: Config, w: World, thread: Thread, choice: Choice)
    requires Dated(w) && RecordDated(w, thread)
    ensures DatedOutcome(ThreadStep(cfg, w, thread, choice), w.now)
  {
    hide Dated, RecordDated, DatedOutcome, ThreadStep, Untouched;
    if thread.ApproveRead? || thread.ApproveDecided? || thread.ApproveReady? || thread.RejectRead? || thread.RejectReady? {
      DecisionsDated(cfg, w, thread, choice);
    } else {
      if Compensation(thread) {
        RollbackUntouched(cfg, w, thread, choice);
      } else if PastClaim(thread) || thread.Moving? || thread.Refreshing? {
        LateUntouched(cfg, w, thread, choice);
      } else if thread.TriageRead? || thread.TriageCollected? || thread.TriageProposed? || thread.Evaluating? {
        EarlyUntouched(cfg, w, thread, choice);
      } else {
        ExecuteUntouched(cfg, w, thread, choice);
      }
      UntouchedDated(w, ThreadStep(cfg, w, thread, choice));
    }
  }

  lemma NextDated(cfg: Config, s: State, s': State)
    requires DatedState(s) && Next(cfg, s, s')
    ensures DatedState(s') && s.world.now <= s'.world.now
  {
    hide ThreadStep, StartedExecutions;
    var step :| StepTo(cfg, s, s', step);
    if step.Advance? {
      hide Dated;
      StepDated(cfg, s.world, s.threads[step.tid], step.choice);
    } else if step.Ingest? || step.Tick? {
      assert forall a :: ApprovalsOf(s'.world.db, a) == ApprovalsOf(s.world.db, a);
    }
  }

  // ----- Certificates

  /** In that state the approval was stored, and it was given no later than it was checked. */
  ghost predicate WitnessAt(run: seq<State>, j: int, a: Id, certificate: Certificate)
    requires 0 <= j < |run| && certificate.Certificate?
  {
    && run[j].world.now == certificate.checkedAt
    && certificate.approval in ApprovalsOf(run[j].world.db, a)
    && certificate.approval.createdAt <= certificate.checkedAt
  }

  ghost predicate Witnessed(run: seq<State>, k: int, a: Id, certificate: Certificate)
    requires 0 <= k < |run|
  {
    certificate.Certificate? ==> exists j :: 0 <= j <= k && WitnessAt(run, j, a, certificate)
  }

  ghost predicate AllWitnessed(run: seq<State>, k: int)
    requires 0 <= k < |run|
  {
    && (forall t :: t in run[k].threads && Carries(run[k].threads[t])
                    ==> Witnessed(run, k, run[k].threads[t].action.id, run[k].threads[t].certificate))
    && (forall n :: 0 <= n < |run[k].world.log| && run[k].world.log[n].ExecuteCall?
                    ==> Witnessed(run, k, run[k].world.log[n].action.id, run[k].world.log[n].certificate))
  }

  /** The certificate was just issued in this world. */
  ghost predicate Issued(w: World, a: Id, certificate: Certificate) {
    certificate.Certificate? ==> certificate.checkedAt == w.now && certificate.approval in ApprovalsOf(w.db, a)
  }

  ghost predicate Passes(w: World, thread: Thread, outcome: Outcome) {
    outcome.Running? && Carries(outcome.thread) ==>
      if Carries(thread) then outcome.thread.action == thread.action && outcome.thread.certificate == thread.certificate
      else Issued(w, outcome.thread.action.id, outcome.thread.certificate)
  }

  ghost predicate Logs(w: World, thread: Thread, outcome: Outcome) {
    !outcome.Blocked? ==>
      || outcome.world.log == w.log
      || (thread.RollbackSaved? && outcome.world.log == w.log + [RollbackCall(thread.action.id)])
      || (thread.Dispatching? && outcome.world.log == w.log + [ExecuteCall(thread.action, thread.execution.id, thread.certificate)])
  }

  lemma StepPasses(cfg: Config, w: World, thread: Thread, choice: Choice)
    ensures Passes(w, thread, ThreadStep(cfg, w, thread, choice))
  {
    hide Duplicate, Attempts, CooldownOf, InScope, ClaimExecution, Executable, MayExecute, Digest.ActionApprovalDigest, ValidApproval;
    if thread.ExecRead? || thread.ExecListed? || thread.ExecDecision? || thread.ExecCleared? || thread.ExecArmed? || thread.ExecReady? {
      if thread.ExecDecision? {
        var rule := thread.decision.rule;
        var digest := Digest.ActionApprovalDigest(thread.action, rule);
        ValidApprovalFound(ApprovalsOf(w.db, thread.action.id), digest, rule, w.now);
      }
    } else if thread.Dispatching? || thread.Calling? {
    } else {
      OthersCarryNothing(cfg, w, thread, choice);
    }
  }

  lemma OthersCarryNothing(cfg: Config, w: World, thread: Thread, choice: Choice)
    requires !Carries(thread) && !thread.ExecRead? && !thread.ExecListed? && !thread.ExecDecision?
    ensures var outcome := ThreadStep(cfg, w, thread, choice); outcome.Running? ==> !Carries(outcome.thread)
  {
    if AfterDispatch(thread) {
      if ThreadStep(cfg, w, thread, choice).Running? {
        hide ThreadStep;
        RecoveryMoves(cfg, w, thread, choice);
      }
    } else {
      hide Transition, UpdateCandidateActionStatus, DecideApproval, FreshActions, Evaluable, RefreshTarget, ApprovalRecord, RejectionRecord,
           SaveCandidateActions, SavePolicyDecisions, Policy.Evaluate;
    }
  }

  lemma StepLogs(cfg: Config, w: World, thread: Thread, choice: Choice)
    ensures Logs(w, thread, ThreadStep(cfg, w, thread, choice))
  {
    hide Transition, UpdateCandidateActionStatus, DecideApproval, FreshActions, Evaluable, RefreshTarget, ApprovalRecord, RejectionRecord,
         SaveCandidateActions, SavePolicyDecisions, Policy.Evaluate, Duplicate, Attempts, CooldownOf, InScope, ClaimExecution, Executable,
         MayExecute, Digest.ActionApprovalDigest, ValidApproval;
    if AfterDispatch(thread) && !thread.RollbackSaved? {
      hide ThreadStep;
      QuietStepLog(cfg, w, thread, choice);
    } else if thread.RollbackSaved? {
      RollbackLogs(cfg, w, thread, choice);
    }
  }

  lemma {:induction false} RunDated(cfg: Config, run: seq<State>, k: nat)
    requires Run(cfg, run) && k < |run|
    ensures DatedState(run[k])
  {
    if k > 0 {
      RunDated(cfg, run, k - 1);
      assert StepAt(cfg, run, k);
      hide DatedState;
      NextDated(cfg, run[k - 1], run[k]);
    }
  }

  lemma WitnessKept(run: seq<State>, k: nat, a: Id, certificate: Certificate)
    requires k + 1 < |run| && Witnessed(run, k, a, certificate)
    ensures Witnessed(run, k + 1, a, certificate)
  {
    if certificate.Certificate? {
      var j :| 0 <= j <= k && WitnessAt(run, j, a, certificate);
    }
  }

  lemma WitnessIssued(run: seq<State>, k: nat, a: Id, certificate: Certificate)
    requires k + 1 < |run| && DatedState(run[k]) && Issued(run[k].world, a, certificate)
    ensures Witnessed(run, k + 1, a, certificate)
  {
    if certificate.Certificate? {
      assert WitnessAt(run, k, a, certificate);
    }
  }

  lemma AdvanceWitnessed(cfg: Config, run: seq<State>, k: nat, tid: int, choice: Choice)
    requires k + 1 < |run| && AllWitnessed(run, k) && DatedState(run[k]) && StepTo(cfg, run[k], run[k + 1], Advance(tid, choice))
    ensures AllWitnessed(run, k + 1)
  {
    hide ThreadStep, DatedState, Witnessed, Startable, StartedExecutions;
    var s, s' := run[k], run[k + 1];
    var thread := s.threads[tid];
    StepPasses(cfg, s.world, thread, choice);
    StepLogs(cfg, s.world, thread, choice);
    forall t | t in s'.threads && Carries(s'.threads[t]) ensures Witnessed(run, k + 1, s'.threads[t].action.id, s'.threads[t].certificate) {
      if t != tid || Carries(thread) {
        assert Carries(s.threads[t]);
        WitnessKept(run, k, s'.threads[t].action.id, s'.threads[t].certificate);
      } else {
        WitnessIssued(run, k, s'.threads[t].action.id, s'.threads[t].certificate);
      }
    }
    forall n | 0 <= n < |s'.world.log| && s'.world.log[n].ExecuteCall? ensures Witnessed(run, k + 1, s'.world.log[n].action.id, s'.world.log[n].certificate) {
      if n < |s.world.log| {
        assert s'.world.log[n] == s.world.log[n];
      } else {
        assert Carries(s.threads[tid]);
      }
      WitnessKept(run, k, s'.world.log[n].action.id, s'.world.log[n].certificate);
    }
  }

  lemma OtherWitnessed(cfg: Config, run: seq<State>, k: nat, step: Step)
    requires k + 1 < |run| && AllWitnessed(run, k) && StepTo(cfg, run[k], run[k + 1], step) && !step.Advance?
    ensures AllWitnessed(run, k + 1)
  {
    hide Witnessed, StartedExecutions;
    var s, s' := run[k], run[k + 1];
    forall t | t in s'.threads && Carries(s'.threads[t]) ensures Witnessed(run, k + 1, s'.threads[t].action.id, s'.threads[t].certificate) {
      assert t in s.threads && s'.threads[t] == s.threads[t];
      WitnessKept(run, k, s'.threads[t].action.id, s'.threads[t].certificate);
    }
    forall n | 0 <= n < |s'.world.log| && s'.world.log[n].ExecuteCall? ensures Witnessed(run, k + 1, s'.world.log[n].action.id, s'.world.log[n].certificate) {
      assert s'.world.log[n] == s.world.log[n];
      WitnessKept(run, k, s'.world.log[n].action.id, s'.world.log[n].certificate);
    }
  }

  lemma {:induction false} RunWitnessed(cfg: Config, run: seq<State>, k: nat)
    requires Run(cfg, run) && k < |run|
    ensures AllWitnessed(run, k)
  {
    if k > 0 {
      RunWitnessed(cfg, run, k - 1);
      RunDated(cfg, run, k - 1);
      assert StepAt(cfg, run, k);
      var step :| StepTo(cfg, run[k - 1], run[k], step);
      hide AllWitnessed, DatedState, StepTo;
      if step.Advance? {
        AdvanceWitnessed(cfg, run, k - 1, step.tid, step.choice);
      } else {
        OtherWitnessed(cfg, run, k - 1, step);
      }
    }
  }

  /** The approval behind a dispatch was looked at in an earlier state of the run: it was stored then, it
      was given no later than that, and it had not expired. */
  lemma EveryDispatchWasChecked(cfg: Config, run: seq<State>, k: nat, n: nat) returns (j: nat)
    requires Run(cfg, run) && k < |run| && n < |run[k].world.log| && run[k].world.log[n].ExecuteCall?
    ensures var call := run[k].world.log[n];
            && call.certificate.Certificate?
            && j <= k
            && call.certificate.approval in ApprovalsOf(run[j].world.db, call.action.id)
            && call.certificate.approval.createdAt <= run[j].world.now < call.certificate.approval.createdAt + APPROVAL_LIFETIME
  {
    hide Run;
    EveryDispatchApproved(cfg, run, k, n);
    RunWitnessed(cfg, run, k);
    var call := run[k].world.log[n];
    assert Witnessed(run, k, call.action.id, call.certificate);
    j :| 0 <= j <= k && WitnessAt(run, j, call.action.id, call.certificate);
  }
}
