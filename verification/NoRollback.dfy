/** A verification that waits for several observations never rolls anything back: over every run the
    rollback operation is out of reach. */
module NoRollback {
  import opened Domain
  import opened Tables
  import opened Protocol
  import opened ProtocolInvariant
  import opened ProtocolWrites
  import opened ProtocolRuns
  import opened Completion
  import Policy

  ghost predicate NoneRolledBack(db: Database) {
    forall a :: a in db.actions ==> db.actions[a].status != ActionRolledBack
  }

  ghost predicate NoneCalled(log: seq<Dispatch>) {
    forall k :: 0 <= k < |log| ==> log[k].ExecuteCall?
  }

  ghost predicate Quiet(w: World) {
    NoneRolledBack(w.db) && NoneCalled(w.log)
  }

  /** The thread is on no way to a rollback. */
  predicate Calm(thread: Thread) {
    && !Compensation(thread)
    && (thread.Judged? || thread.Concluding? ==> thread.verdict != Failure)
    && (thread.Unwinding? ==> thread.verdict == Inconclusive)
  }

  ghost predicate QuietState(s: State) {
    Quiet(s.world) && forall t :: t in s.threads ==> Calm(s.threads[t])
  }

  ghost predicate Stays(outcome: Outcome) {
    !outcome.Blocked? ==> Quiet(outcome.world) && (outcome.Running? ==> Calm(outcome.thread))
  }

  // ----- Store writes

  ghost predicate Mild(db: Database, write: Write) {
    write.Done? ==> (NoneRolledBack(db) ==> NoneRolledBack(write.db))
  }

  lemma WritesAreMild(db: Database)
    ensures forall i, from, to :: Mild(db, Transition(db, i, from, to))
    ensures forall a, status :: status != ActionRolledBack ==> Mild(db, UpdateCandidateActionStatus(db, a, status))
    ensures forall r, verdict :: Mild(db, SaveVerificationResult(db, r, verdict))
    ensures forall r :: Mild(db, SaveExecutionRecord(db, r))
    ensures forall i, a, r :: Mild(db, ClaimExecution(db, i, a, r))
  {
  }

  lemma DecisionIsMild(db: Database, i: Id, record: Approval, from: ActionStatus, to: ActionStatus,
                       expected: Option<IncidentState>, next: Option<IncidentState>)
    requires to != ActionRolledBack
    ensures Mild(db, DecideApproval(db, i, record, from, to, expected, next))
  {
  }

  lemma GeneratedAreMild(db: Database, incident: Id, actions: seq<Action>)
    requires FreshActions(db, incident, actions) && NoneRolledBack(db)
    ensures NoneRolledBack(SaveCandidateActions(db, actions))
  {
    SaveActionsFrame(db, actions);
    var db' := SaveCandidateActions(db, actions);
    forall a | a in db'.actions ensures db'.actions[a].status != ActionRolledBack {
      if a in Ids(actions) {
        var k :| 0 <= k < |actions| && actions[k].id == a;
        assert db'.actions[actions[k].id] == actions[k];
      }
    }
  }

  // ----- Steps

  lemma EarlyStays(cfg: Config, w: World, thread: Thread, choice: Choice)
    requires Quiet(w) && !PastClaim(thread) && !BeforeClaim(thread)
    requires !thread.Moving? && !thread.TriageCollected? && !thread.Evaluating?
    ensures Stays(ThreadStep(cfg, w, thread, choice))
  {
    hide Quiet, Transition, DecideApproval, Evaluable, RefreshTarget, ApprovalRecord, RejectionRecord;
    match thread
    case ApproveRead(_, _) =>
    case ApproveDecided(_, _) =>
    case ApproveReady(action, record, from) =>
      DecisionIsMild(w.db, action.incident, record, Awaiting, ActionApproved, Some(from), Some(Approved));
      MildQuiet(w, DecideApproval(w.db, action.incident, record, Awaiting, ActionApproved, Some(from), Some(Approved)));
    case RejectRead(_, _) =>
    case RejectReady(action, record, _) =>
      DecisionIsMild(w.db, action.incident, record, Awaiting, Denied, None, None);
      MildQuiet(w, DecideApproval(w.db, action.incident, record, Awaiting, Denied, None, None));
    case Refreshing(_, _) =>
    case TriageRead(incident) => TransitionQuiet(w, incident.id, incident.state, Triaging);
    case TriageProposed(incident, _) => TransitionQuiet(w, incident.id, Triaging, ActionProposed);
  }

  lemma ClaimStays(cfg: Config, w: World, thread: Thread, choice: Choice)
    requires Quiet(w) && BeforeClaim(thread)
    ensures Stays(ThreadStep(cfg, w, thread, choice))
  {
    hide Quiet, ClaimExecution, MayExecute, ValidApproval, InScope, Duplicate, Attempts, Executable;
    if thread.ExecReady? && choice.Fresh? {
      var action := thread.action;
      ClaimQuiet(w, action.incident, action.id,
                 Execution(choice.id, action.id, ExecuteKey(action.id), thread.initiator, ExecStarted, w.now, w.now));
    }
  }

  lemma MildQuiet(w: World, write: Write)
    requires Mild(w.db, write)
    ensures Quiet(w) && write.Done? ==> Quiet(w.(db := write.db))
  {
  }

  lemma TransitionQuiet(w: World, i: Id, from: IncidentState, to: IncidentState)
    ensures var write := Transition(w.db, i, from, to); Quiet(w) && write.Done? ==> Quiet(w.(db := write.db))
  {
    WritesAreMild(w.db);
    assert Mild(w.db, Transition(w.db, i, from, to));
  }

  lemma StatusQuiet(w: World, a: Id, status: ActionStatus)
    requires status != ActionRolledBack
    ensures var write := UpdateCandidateActionStatus(w.db, a, status); Quiet(w) && write.Done? ==> Quiet(w.(db := write.db))
  {
    WritesAreMild(w.db);
    assert Mild(w.db, UpdateCandidateActionStatus(w.db, a, status));
  }

  lemma ClaimQuiet(w: World, i: Id, a: Id, record: Execution)
    ensures var write := ClaimExecution(w.db, i, a, record); Quiet(w) && write.Done? ==> Quiet(w.(db := write.db))
  {
    WritesAreMild(w.db);
    assert Mild(w.db, ClaimExecution(w.db, i, a, record));
  }

  lemma RecordQuiet(w: World, record: Execution)
    ensures var write := SaveExecutionRecord(w.db, record); Quiet(w) && write.Done? ==> Quiet(w.(db := write.db))
  {
    WritesAreMild(w.db);
    assert Mild(w.db, SaveExecutionRecord(w.db, record));
  }

  lemma VerdictQuiet(w: World, record: Id, verdict: Verdict)
    ensures var write := SaveVerificationResult(w.db, record, verdict); Quiet(w) && write.Done? ==> Quiet(w.(db := write.db))
  {
    WritesAreMild(w.db);
    assert Mild(w.db, SaveVerificationResult(w.db, record, verdict));
  }

  lemma TriageStays(cfg: Config, w: World, thread: Thread, choice: Choice)
    requires Quiet(w) && (thread.TriageCollected? || thread.Evaluating?)
    ensures Stays(ThreadStep(cfg, w, thread, choice))
  {
    hide UpdateCandidateActionStatus, Policy.Evaluate;
    if thread.TriageCollected? {
      if choice.Generated? && FreshActions(w.db, thread.subject.id, choice.actions) {
        GeneratedAreMild(w.db, thread.subject.id, choice.actions);
        SaveActionsFrame(w.db, choice.actions);
      }
    } else if thread.todo == [] {
      SaveDecisionsFrame(w.db, thread.decided);
    } else {
      var decision := Policy.Evaluate(cfg.catalog, cfg.topology, thread.todo[0], thread.subject.environment, w.killed);
      hide Quiet;
      StatusQuiet(w, thread.todo[0].id, Policy.StatusFromDecision(decision));
    }
  }

  lemma DispatchStays(cfg: Config, w: World, thread: Thread, choice: Choice)
    requires Quiet(w) && (thread.Dispatching? || thread.Calling? || thread.Saving? || thread.Marking? || thread.Settling? || thread.Moving?)
    ensures Stays(ThreadStep(cfg, w, thread, choice))
  {
    hide Transition, UpdateCandidateActionStatus, SaveExecutionRecord, NoneRolledBack, IncidentStateAfter;
    match thread
    case Moving(i, from, to) => TransitionQuiet(w, i, from, to);
    case Dispatching(_, _, _, _) =>
    case Calling(_, _, _, _) =>
    case Saving(_, execution, _) => RecordQuiet(w, execution);
    case Marking(action, execution, _) => StatusQuiet(w, action.id, ActionStatusAfter(execution.status));
    case Settling(action, execution, from) => TransitionQuiet(w, action.incident, from, IncidentStateAfter(execution.status));
  }

  lemma VerifyStays(cfg: Config, w: World, thread: Thread, choice: Choice)
    requires Quiet(w) && cfg.required > 1 && Calm(thread)
    requires thread.Verifying? || thread.Judged? || thread.Concluding? || thread.Unwinding?
    ensures Stays(ThreadStep(cfg, w, thread, choice))
  {
    hide Transition, UpdateCandidateActionStatus, SaveVerificationResult, Quiet, HasRollbackPlan;
    match thread
    case Verifying(_, _) =>
    case Judged(_, execution, verdict, _) => VerdictQuiet(w, execution.id, verdict);
    case Concluding(action, _, _, _) => StatusQuiet(w, action.id, Failed);
    case Unwinding(_, _, _, _) =>
  }

  lemma ThreadStays(cfg: Config, w: World, thread: Thread, choice: Choice)
    requires Quiet(w) && cfg.required > 1 && Calm(thread)
    ensures Stays(ThreadStep(cfg, w, thread, choice))
  {
    hide Quiet, Stays, ThreadStep;
    if thread.Verifying? || thread.Judged? || thread.Concluding? || thread.Unwinding? {
      VerifyStays(cfg, w, thread, choice);
    } else if PastClaim(thread) || thread.Moving? {
      DispatchStays(cfg, w, thread, choice);
    } else if thread.TriageCollected? || thread.Evaluating? {
      TriageStays(cfg, w, thread, choice);
    } else if BeforeClaim(thread) {
      ClaimStays(cfg, w, thread, choice);
    } else {
      EarlyStays(cfg, w, thread, choice);
    }
  }

  lemma NextStays(cfg: Config, s: State, s': State)
    requires cfg.required > 1 && QuietState(s) && Next(cfg, s, s')
    ensures QuietState(s')
  {
    hide ThreadStep, Startable, StartedExecutions, NoneCalled;
    var step :| StepTo(cfg, s, s', step);
    if step.Advance? {
      hide Quiet;
      ThreadStays(cfg, s.world, s.threads[step.tid], step.choice);
    } else if step.Start? {
      StartIsCalm(cfg, s.world, step.thread);
    }
  }

  lemma StartIsCalm(cfg: Config, w: World, thread: Thread)
    requires Startable(cfg, w, thread)
    ensures Calm(thread)
  {
  }

  lemma {:induction false} RunStays(cfg: Config, run: seq<State>, k: nat)
    requires cfg.required > 1 && Run(cfg, run) && k < |run|
    ensures QuietState(run[k])
  {
    if k > 0 {
      RunStays(cfg, run, k - 1);
      assert StepAt(cfg, run, k);
      hide QuietState;
      NextStays(cfg, run[k - 1], run[k]);
    }
  }

  lemma {:induction false} NoCallsCounted(log: seq<Dispatch>, a: Id)
    requires NoneCalled(log)
    ensures RollbackCalls(log, a) == 0
  {
    if log != [] {
      NoCallsCounted(log[..|log| - 1], a);
    }
  }

  /** With more than one required observation, no run ever dispatches a rollback or marks an action rolled
      back, whatever the adapter, the policy and the operators do and however often the process restarts. */
  lemma SeveralObservationsNeverRollBack(cfg: Config, run: seq<State>, k: nat, a: Id)
    requires cfg.required > 1 && Run(cfg, run) && k < |run|
    ensures RollbackCalls(run[k].world.log, a) == 0
    ensures a in run[k].world.db.actions ==> run[k].world.db.actions[a].status != ActionRolledBack
    ensures forall t :: t in run[k].threads ==> !Compensation(run[k].threads[t])
  {
    RunStays(cfg, run, k);
    NoCallsCounted(run[k].world.log, a);
  }
}
