/** What the guarded execution protocol guarantees over every run. */
module ProtocolTheorems {
  import opened Collections
  import opened Domain
  import opened StateMachine
  import opened Tables
  import opened Protocol
  import opened ProtocolInvariant
  import opened ProtocolSteps
  import opened ProtocolRuns
  import Digest

  // ----- At most one execution, and bounded dispatching

  /** At every point of every run, an action has at most one execution record and at most one
      operator decision; its adapter operation was called at most retries + 1 times, only if it was
      recorded, and its rollback at most once. */
  lemma AtMostOneExecution(cfg: Config, run: seq<State>, k: nat, a: Id)
    requires Run(cfg, run) && k < |run|
    ensures var w := run[k].world;
            && (forall r1, r2 | r1 in w.db.executions && r2 in w.db.executions
                  :: w.db.executions[r1].action == a && w.db.executions[r2].action == a ==> r1 == r2)
            && ExecuteCalls(w.log, a) <= cfg.retries + 1
            && (ExecuteCalls(w.log, a) > 0 ==> Recorded(w.db, a))
            && RollbackCalls(w.log, a) <= 1
            && (a in w.db.actions ==> |ApprovalsOf(w.db, a)| <= 1)
  {
    InvariantHolds(cfg, run, k);
    var db := run[k].world.db;
    forall r1, r2 | r1 in db.executions && r2 in db.executions && db.executions[r1].action == a && db.executions[r2].action == a
      ensures r1 == r2
    {
      assert SameAction(db, r1, r2);
    }
    if a in db.actions {
      assert ApprovalsSoundFor(db, a);
    }
  }

  /** Once an action has a record no claim on it succeeds, whatever the record's status and age:
      the cooldown and attempt-limit checks never open the way to a second execution. */
  lemma NoSecondClaim(cfg: Config, run: seq<State>, k: nat, incident: Id, a: Id, record: Execution)
    requires Run(cfg, run) && k < |run| && Recorded(run[k].world.db, a)
    ensures !ClaimExecution(run[k].world.db, incident, a, record).Done?
    ensures a in run[k].world.db.actions ==> !Executable(run[k].world.db.actions[a].status)
  {
    InvariantHolds(cfg, run, k);
    if a in run[k].world.db.actions {
      assert RecordMatchesStatus(run[k].world.db, a);
    }
  }

  lemma QuietStepLog(cfg: Config, w: World, thread: Thread, choice: Choice)
    requires AfterDispatch(thread) && !thread.RollbackSaved?
    ensures var outcome := ThreadStep(cfg, w, thread, choice);
            !outcome.Blocked? ==> outcome.world.log == w.log
  {
    hide Transition, UpdateCandidateActionStatus, SaveExecutionRecord, SaveVerificationResult, SaveRollbackRecord, HasRollbackPlan,
         ActionStatusAfter, IncidentStateAfter;
    if Compensation(thread) {
      match thread
      case Compensating(_) =>
      case RollbackCalling(_, _) =>
      case RollbackDone(_, _) =>
      case RollbackMarking(_) =>
    } else {
      match thread
      case Moving(_, _, _) =>
      case Saving(_, _, _) =>
      case Marking(_, _, _) =>
      case Settling(_, _, _) =>
      case Verifying(_, _) =>
      case Judged(_, _, _, _) =>
      case Concluding(_, _, _, _) =>
      case Unwinding(_, _, _, _) =>
    }
  }

  lemma RollbackLogs(cfg: Config, w: World, thread: Thread, choice: Choice)
    requires thread.RollbackSaved?
    ensures ThreadStep(cfg, w, thread, choice).Running?
    ensures ThreadStep(cfg, w, thread, choice).world.log == w.log + [RollbackCall(thread.action.id)]
  {
  }

  lemma RecoveryThread(cfg: Config, s: State, tid: int)
    requires StateInv(cfg, s) && tid in s.threads && !s.phase.Serving?
    ensures AfterDispatch(s.threads[tid])
  {
  }

  /** Outside of serving, so in particular during recovery, no execute operation is dispatched. */
  lemma RecoveryNeverDispatches(cfg: Config, s: State, s': State, a: Id)
    requires StateInv(cfg, s) && Next(cfg, s, s') && !s.phase.Serving?
    ensures ExecuteCalls(s'.world.log, a) == ExecuteCalls(s.world.log, a)
  {
    hide WorldInv, ThreadsInv, OwnersDisjoint, ThreadStep, Startable, StartedExecutions, AfterDispatch, Pending, Owned;
    var step :| StepTo(cfg, s, s', step);
    if step.Advance? {
      var thread := s.threads[step.tid];
      RecoveryThread(cfg, s, step.tid);
      if thread.RollbackSaved? {
        RollbackLogs(cfg, s.world, thread, step.choice);
        CallsSnoc(s.world.log, RollbackCall(thread.action.id), a);
      } else {
        QuietStepLog(cfg, s.world, thread, step.choice);
      }
    }
  }

  // ----- Exclusive targets

  /** At most one started execution works on a target, across all incidents, and an execute
      operation that is in flight belongs to that execution. */
  lemma OneExecutionPerTarget(cfg: Config, run: seq<State>, k: nat, r1: Id, r2: Id)
    requires Run(cfg, run) && k < |run|
    requires var db := run[k].world.db;
             && r1 in db.executions && r2 in db.executions
             && db.executions[r1].status == ExecStarted && db.executions[r2].status == ExecStarted
    ensures var db := run[k].world.db;
            var a1, a2 := db.executions[r1].action, db.executions[r2].action;
            a1 in db.actions && a2 in db.actions && (db.actions[a1].target == db.actions[a2].target ==> r1 == r2)
  {
    InvariantHolds(cfg, run, k);
    assert Collide(run[k].world.db, r1, r2) ==> r1 == r2;
  }

  lemma InFlightCallHoldsTarget(cfg: Config, run: seq<State>, k: nat, tid: int)
    requires Run(cfg, run) && k < |run| && tid in run[k].threads && run[k].threads[tid].Calling?
    ensures var thread, db := run[k].threads[tid], run[k].world.db;
            && thread.execution.id in db.executions && db.executions[thread.execution.id] == thread.execution
            && thread.execution.status == ExecStarted && thread.execution.action == thread.action.id
            && (forall r :: r in db.executions && StartedOn(db, r, thread.action.target) ==> r == thread.execution.id)
  {
    InvariantHolds(cfg, run, k);
    var thread, w := run[k].threads[tid], run[k].world;
    assert ThreadInv(cfg, w, thread);
    forall r | r in w.db.executions && StartedOn(w.db, r, thread.action.target) ensures r == thread.execution.id {
      assert Collide(w.db, r, thread.execution.id);
    }
  }

  // ----- Approval before dispatch

  /** Every execute operation ever dispatched carried an action value that matches the stored row in
      all but status, and had passed against a stored approval: given by a named operator, for exactly
      this id, type, target, parameters, risk and policy rule, and unexpired when it was checked. */
  lemma EveryDispatchApproved(cfg: Config, run: seq<State>, k: nat, n: nat)
    requires Run(cfg, run) && k < |run| && n < |run[k].world.log| && run[k].world.log[n].ExecuteCall?
    ensures var db, call := run[k].world.db, run[k].world.log[n];
            && call.action.id in db.actions && db.actions[call.action.id].SameContent(call.action)
            && call.certificate.Certificate?
            && var approval := call.certificate.approval;
               && ApprovalsOf(db, call.action.id) == [approval]
               && approval.approved && Nonblank(approval.approver)
               && call.action.id in db.decisions && db.decisions[call.action.id].kind != Allow
               && approval.policy == db.decisions[call.action.id].rule
               && approval.digest == Digest.ActionApprovalDigest(call.action, approval.policy)
               && approval.expiresAt == Some(approval.createdAt + APPROVAL_LIFETIME)
               && call.certificate.checkedAt < approval.createdAt + APPROVAL_LIFETIME
  {
    InvariantHolds(cfg, run, k);
    var db, call := run[k].world.db, run[k].world.log[n];
    assert CallSound(db, call);
    assert ApprovalsSoundFor(db, call.action.id);
  }

  /** The approval behind a dispatch covers no other action: whatever has its digest is the action that
      was dispatched, under the same rule, if that action's fields are free of NUL characters. */
  lemma ApprovalCoversOnlyThisAction(cfg: Config, run: seq<State>, k: nat, n: nat, other: Action, rule: string)
    requires Run(cfg, run) && k < |run| && n < |run[k].world.log| && run[k].world.log[n].ExecuteCall?
    requires var call := run[k].world.log[n];
             && call.certificate.Certificate? && call.certificate.approval.digest == Digest.ActionApprovalDigest(other, rule)
             && forall part :: part in Digest.Parts(call.action, call.certificate.approval.policy) ==> Digest.NulFree(part)
    ensures var call := run[k].world.log[n];
            && other.id == call.action.id && other.actionType == call.action.actionType && other.target == call.action.target
            && other.parameters == call.action.parameters && other.risk == call.action.risk
            && Digest.TrimSpace(rule) == Digest.TrimSpace(call.certificate.approval.policy)
  {
    hide Run;
    EveryDispatchApproved(cfg, run, k, n);
    var call := run[k].world.log[n];
    Digest.DigestBindsAction((text: string) => text, call.action, call.certificate.approval.policy, other, rule);
  }

  // ----- The life of an action

  /** The statuses an action can still reach. */
  function Future(status: ActionStatus): set<ActionStatus> {
    match status
    case Proposed => {Awaiting, Denied, ActionApproved, Executing, Succeeded, Failed, ActionRolledBack}
    case Awaiting => {Denied, ActionApproved, Executing, Succeeded, Failed, ActionRolledBack}
    case ActionApproved => {Executing, Succeeded, Failed, ActionRolledBack}
    case Executing => {Succeeded, Failed, ActionRolledBack}
    case Succeeded => {Failed, ActionRolledBack}
    case Failed => {ActionRolledBack}
    case _ => {}
  }

  ghost predicate ActionEvolved(w: World, w': World, a: Id)
    requires a in w.db.actions
  {
    && a in w'.db.actions && w'.db.actions[a].SameContent(w.db.actions[a])
    && (w'.db.actions[a].status == w.db.actions[a].status || w'.db.actions[a].status in Future(w.db.actions[a].status))
  }

  /** One step moves a status along one edge of the life cycle, or not at all. */
  lemma StatusStep(cfg: Config, s: State, s': State, a: Id)
    requires StateInv(cfg, s) && Next(cfg, s, s') && a in s.world.db.actions
    ensures a in s'.world.db.actions && s'.world.db.actions[a].SameContent(s.world.db.actions[a])
    ensures var from, to := s.world.db.actions[a].status, s'.world.db.actions[a].status;
            from == to || StatusEdge(from, to)
  {
    hide StateInv, Next;
    NextKeeps(cfg, s, s');
    var own :| Guarantee(s.world, s'.world, own);
    assert ActionKept(s.world.db, s'.world.db, own, a);
  }

  lemma EvolvesFurther(w: World, m: World, w': World, a: Id)
    requires a in w.db.actions && ActionEvolved(w, m, a)
    requires a in w'.db.actions && w'.db.actions[a].SameContent(m.db.actions[a])
    requires m.db.actions[a].status == w'.db.actions[a].status || StatusEdge(m.db.actions[a].status, w'.db.actions[a].status)
    ensures ActionEvolved(w, w', a)
  {
  }

  /** The unguarded status writes are race-free: whatever interleaving of evaluation, approval,
      rejection, execution, verification, rollback and recovery, an action's row is never lost or
      rewritten and its status only moves forward. */
  lemma {:induction false} StatusOnlyMovesForward(cfg: Config, run: seq<State>, j: nat, k: nat, a: Id)
    requires Run(cfg, run) && j <= k < |run| && a in run[j].world.db.actions
    ensures ActionEvolved(run[j].world, run[k].world, a) && a in run[k].world.db.actions
  {
    if j < k {
      InvariantHolds(cfg, run, k - 1);
      assert StepAt(cfg, run, k);
      hide Run, StateInv, Next, StatusEdge, Future, ActionEvolved;
      StatusOnlyMovesForward(cfg, run, j, k - 1, a);
      StatusStep(cfg, run[k - 1], run[k], a);
      EvolvesFurther(run[j].world, run[k - 1].world, run[k].world, a);
    }
  }

  // ----- The life of an incident

  ghost function ClaimedOf(db: Database, i: Id): set<Id> {
    set a | a in db.actions && db.actions[a].incident == i && Recorded(db, a)
  }

  ghost function ActionsOf(db: Database, i: Id): set<Id> {
    set a | a in db.actions && db.actions[a].incident == i
  }

  /** How often the incident's state changed in a run. */
  ghost function Changes(run: seq<State>, i: Id): nat {
    if |run| < 2 then 0
    else Changes(run[..|run| - 1], i) + if Changed(run[|run| - 2].world.db, run[|run| - 1].world.db, i) then 1 else 0
  }

  ghost predicate Changed(db: Database, db': Database, i: Id) {
    i in db.incidents && i in db'.incidents && db.incidents[i].state != db'.incidents[i].state
  }

  lemma ClaimedGrows(w: World, w': World, own: set<Id>, i: Id)
    requires Guarantee(w, w', own)
    ensures ClaimedOf(w.db, i) <= ClaimedOf(w'.db, i)
    ensures |ClaimedOf(w.db, i)| <= |ClaimedOf(w'.db, i)|
    ensures NewlyClaimed(w.db, w'.db, i) ==> |ClaimedOf(w.db, i)| < |ClaimedOf(w'.db, i)|
  {
    var before, after := ClaimedOf(w.db, i), ClaimedOf(w'.db, i);
    forall a | a in before ensures a in after {
      assert ActionKept(w.db, w'.db, own, a);
      RecordedKept(w.db, w'.db, own, a);
    }
    SubsetSize(before, after);
    if NewlyClaimed(w.db, w'.db, i) {
      var a :| a in w.db.actions && w.db.actions[a].incident == i && !Recorded(w.db, a) && Recorded(w'.db, a);
      assert ActionKept(w.db, w'.db, own, a);
      SubsetSize(before + {a}, after);
    }
  }

  /** Rank plus six per unclaimed action is a potential: every change of state uses some of it up. */
  lemma PotentialDrops(w: World, w': World, own: set<Id>, i: Id)
    requires Guarantee(w, w', own) && i in w.db.incidents
    ensures i in w'.db.incidents
    ensures (if Changed(w.db, w'.db, i) then 1 else 0) + Rank(w'.db.incidents[i].state) + 6 * |ClaimedOf(w.db, i)|
            <= Rank(w.db.incidents[i].state) + 6 * |ClaimedOf(w'.db, i)|
    ensures Terminal(w.db.incidents[i].state) && !Terminal(w'.db.incidents[i].state)
            ==> w'.db.incidents[i].state == ExecutingAction && NewlyClaimed(w.db, w'.db, i)
  {
    assert IncidentMoves(w.db, w'.db, i);
    ClaimedGrows(w, w', own, i);
    var from, to := w.db.incidents[i].state, w'.db.incidents[i].state;
    if CanTransition(from, to) {
      RankDrops(from, to);
    }
  }

  lemma RankDrops(from: IncidentState, to: IncidentState)
    requires CanTransition(from, to)
    ensures Rank(to) < Rank(from) && (Terminal(from) ==> Terminal(to))
  {
  }

  /** An incident changes state at most 10 + 6n times, n being the number of its actions, although a
      claim may take it back to ExecutingAction from any state. */
  lemma {:induction false} IncidentLifecycleIsBounded(cfg: Config, run: seq<State>, i: Id)
    requires Run(cfg, run)
    ensures var db := run[|run| - 1].world.db;
            && (i !in db.incidents ==> Changes(run, i) == 0)
            && (i in db.incidents ==> Changes(run, i) + Rank(db.incidents[i].state) <= 10 + 6 * |ClaimedOf(db, i)|)
            && |ClaimedOf(db, i)| <= |ActionsOf(db, i)|
            && Changes(run, i) <= 10 + 6 * |ActionsOf(db, i)|
  {
    var last := run[|run| - 1].world.db;
    SubsetSize(ClaimedOf(last, i), ActionsOf(last, i));
    if |run| > 1 {
      var before := run[..|run| - 1];
      assert Run(cfg, before) by {
        forall k | 0 < k < |before| ensures StepAt(cfg, before, k) {
          assert StepAt(cfg, run, k);
        }
      }
      IncidentLifecycleIsBounded(cfg, before, i);
      var s, s' := run[|run| - 2], run[|run| - 1];
      assert before[|before| - 1] == s;
      assert StepAt(cfg, run, |run| - 1);
      assert Next(cfg, s, s');
      InvariantHolds(cfg, run, |run| - 2);
      hide StateInv, Next, Run;
      NextKeeps(cfg, s, s');
      var own :| Guarantee(s.world, s'.world, own);
      hide Guarantee;
      if i in s.world.db.incidents {
        PotentialDrops(s.world, s'.world, own, i);
      }
      RankAtMostTen();
    }
  }

  lemma RankAtMostTen()
    ensures forall state :: Rank(state) <= 10
  {
  }

  /** A terminal incident becomes active again only when one of its actions is claimed. */
  lemma OnlyClaimsRevive(cfg: Config, s: State, s': State, i: Id)
    requires StateInv(cfg, s) && Next(cfg, s, s') && i in s.world.db.incidents
    ensures i in s'.world.db.incidents
    ensures Terminal(s.world.db.incidents[i].state) && !Terminal(s'.world.db.incidents[i].state)
            ==> s'.world.db.incidents[i].state == ExecutingAction && NewlyClaimed(s.world.db, s'.world.db, i)
  {
    hide StateInv, Next;
    NextKeeps(cfg, s, s');
    var own :| Guarantee(s.world, s'.world, own);
    PotentialDrops(s.world, s'.world, own, i);
  }
}
