/** What stands behind every dispatch of a run: the person who approved the action, a decision that asked
    for that approval, and a catalog entry that lets it be executed there. */
module RunGuards {
  import opened Domain
  import opened StateMachine
  import opened Tables
  import opened Protocol
  import opened ProtocolInvariant
  import opened ProtocolWrites
  import opened ProtocolSteps
  import opened ProtocolRuns
  import opened ProtocolTheorems
  import opened ProtocolHistory
  import opened Completion
  import opened AdmissionOutcomes
  import opened EvidenceHistory
  import Digest
  import E = EvidenceItems
  import Policy

  // ----- Who approved or rejected

  /** The thread is a call of this operator on the action, and the record is what such a call stores now. */
  ghost predicate Signs(w: World, thread: Thread, a: Id, x: Approval) {
    if x.approved then
      && thread.ApproveRead? && thread.action.id == a && thread.approver == x.approver && a in w.db.decisions
      && var rule := w.db.decisions[a].rule;
         x == Approval(a, x.approver, true, Digest.ActionApprovalDigest(thread.action, rule), rule, Some(w.now + 900), w.now)
    else
      && thread.RejectRead? && thread.action.id == a && thread.approver == x.approver
      && x == Approval(a, x.approver, false, "", "", None, w.now)
  }

  ghost predicate SignedAt(run: seq<State>, j: int, t: int, a: Id, x: Approval)
    requires 0 <= j < |run|
  {
    t in run[j].threads && Signs(run[j].world, run[j].threads[t], a, x)
  }

  ghost predicate Signed(run: seq<State>, k: int, a: Id, x: Approval)
    requires 0 <= k < |run|
  {
    exists j, t :: 0 <= j <= k && SignedAt(run, j, t, a, x)
  }

  ghost predicate AllSigned(run: seq<State>, k: int)
    requires 0 <= k < |run|
  {
    && (forall a, x :: x in ApprovalsOf(run[k].world.db, a) ==> Signed(run, k, a, x))
    && (forall t :: t in run[k].threads && HoldsDecision(run[k].threads[t])
                    ==> Signed(run, k, run[k].threads[t].action.id, run[k].threads[t].record))
  }

  lemma SignedLater(run: seq<State>, k: nat, a: Id, x: Approval)
    requires k + 1 < |run| && Signed(run, k, a, x)
    ensures Signed(run, k + 1, a, x)
  {
    var j, t :| 0 <= j <= k && SignedAt(run, j, t, a, x);
  }

  lemma SignedFor(run: seq<State>, k: nat, a: Id, x: Approval)
    requires k < |run| && Signed(run, k, a, x)
    ensures x.action == a
  {
    var j, t :| 0 <= j <= k && SignedAt(run, j, t, a, x);
  }

  /** The decision is stored under its own action. */
  lemma DecisionStores(db: Database, i: Id, record: Approval, from: ActionStatus, to: ActionStatus, expected: Option<IncidentState>, next: Option<IncidentState>)
    ensures var write := DecideApproval(db, i, record, from, to, expected, next);
            write.Done? ==> forall a, x :: x in ApprovalsOf(write.db, a) ==> x in ApprovalsOf(db, a) || (x == record && a == record.action)
  {
  }

  /** Deciding threads hand on their record or store it; the others store none and hold none. */
  ghost predicate Hands(w: World, thread: Thread, outcome: Outcome)
    requires HasAction(thread)
  {
    !outcome.Blocked? ==>
      && (outcome.Running? && HoldsDecision(outcome.thread) ==>
            outcome.thread.action.id == thread.action.id
            && if HoldsDecision(thread) then outcome.thread.record == thread.record
               else Signs(w, thread, thread.action.id, outcome.thread.record))
      && (forall a, x :: x in ApprovalsOf(outcome.world.db, a) ==>
            x in ApprovalsOf(w.db, a) || (HoldsDecision(thread) && x == thread.record && a == thread.record.action))
  }

  predicate HasAction(thread: Thread) {
    thread.ApproveRead? || thread.RejectRead? || HoldsDecision(thread)
  }

  lemma DecidersHand(cfg: Config, w: World, thread: Thread, choice: Choice)
    requires HasAction(thread)
    ensures Hands(w, thread, ThreadStep(cfg, w, thread, choice))
  {
    hide DecideApproval, Digest.ActionApprovalDigest, ApprovalsOf;
    match thread
    case ApproveRead(_, _) =>
    case ApproveDecided(_, _) =>
    case ApproveReady(action, record, from) =>
      DecisionStores(w.db, action.incident, record, Awaiting, ActionApproved, Some(from), Some(Approved));
    case RejectRead(_, _) =>
    case RejectReady(action, record, _) =>
      DecisionStores(w.db, action.incident, record, Awaiting, Denied, None, None);
  }

  lemma OthersUntouched(cfg: Config, w: World, thread: Thread, choice: Choice)
    requires !HasAction(thread)
    ensures Untouched(w, ThreadStep(cfg, w, thread, choice))
  {
    hide ThreadStep, Untouched;
    if Compensation(thread) {
      RollbackUntouched(cfg, w, thread, choice);
    } else if PastClaim(thread) || thread.Moving? || thread.Refreshing? {
      LateUntouched(cfg, w, thread, choice);
    } else if thread.TriageRead? || thread.TriageCollected? || thread.TriageProposed? || thread.Evaluating? {
      EarlyUntouched(cfg, w, thread, choice);
    } else {
      ExecuteUntouched(cfg, w, thread, choice);
    }
  }

  lemma AdvanceSigned(cfg: Config, run: seq<State>, k: nat, tid: int, choice: Choice)
    requires k + 1 < |run| && AllSigned(run, k) && StepTo(cfg, run[k], run[k + 1], Advance(tid, choice))
    ensures AllSigned(run, k + 1)
  {
    hide ThreadStep, Signed, Signs, ApprovalsOf, Startable, StartedExecutions;
    var s, s' := run[k], run[k + 1];
    var thread := s.threads[tid];
    var outcome := ThreadStep(cfg, s.world, thread, choice);
    if HasAction(thread) {
      DecidersHand(cfg, s.world, thread, choice);
    } else {
      OthersUntouched(cfg, s.world, thread, choice);
      SameApprovalsOf(s.world.db, outcome.world.db);
    }
    forall a, x | x in ApprovalsOf(s'.world.db, a) ensures Signed(run, k + 1, a, x) {
      if x in ApprovalsOf(s.world.db, a) {
        SignedLater(run, k, a, x);
      } else {
        SignedFor(run, k, thread.action.id, thread.record);
        SignedLater(run, k, thread.action.id, thread.record);
      }
    }
    forall t | t in s'.threads && HoldsDecision(s'.threads[t]) ensures Signed(run, k + 1, s'.threads[t].action.id, s'.threads[t].record) {
      if t != tid || HoldsDecision(thread) {
        assert HoldsDecision(s.threads[t]);
        SignedLater(run, k, s'.threads[t].action.id, s'.threads[t].record);
      } else {
        SignedNow(run, k, tid, thread.action.id, s'.threads[t].record);
      }
    }
  }

  lemma SameApprovalsOf(db: Database, db': Database)
    ensures db'.approvals == db.approvals ==> forall a :: ApprovalsOf(db', a) == ApprovalsOf(db, a)
  {
  }

  lemma SignedNow(run: seq<State>, k: nat, t: int, a: Id, x: Approval)
    requires k + 1 < |run| && t in run[k].threads && Signs(run[k].world, run[k].threads[t], a, x)
    ensures Signed(run, k + 1, a, x)
  {
    assert SignedAt(run, k, t, a, x);
  }

  lemma OtherSigned(cfg: Config, run: seq<State>, k: nat, step: Step)
    requires k + 1 < |run| && AllSigned(run, k) && StepTo(cfg, run[k], run[k + 1], step) && !step.Advance?
    ensures AllSigned(run, k + 1)
  {
    hide Signed, ApprovalsOf, StartedExecutions;
    var s, s' := run[k], run[k + 1];
    SameApprovalsOf(s.world.db, s'.world.db);
    forall a, x | x in ApprovalsOf(s'.world.db, a) ensures Signed(run, k + 1, a, x) {
      SignedLater(run, k, a, x);
    }
    forall t | t in s'.threads && HoldsDecision(s'.threads[t]) ensures Signed(run, k + 1, s'.threads[t].action.id, s'.threads[t].record) {
      assert t in s.threads && s'.threads[t] == s.threads[t];
      SignedLater(run, k, s'.threads[t].action.id, s'.threads[t].record);
    }
  }

  lemma {:induction false} RunSigned(cfg: Config, run: seq<State>, k: nat)
    requires Run(cfg, run) && k < |run|
    ensures AllSigned(run, k)
  {
    if k > 0 {
      RunSigned(cfg, run, k - 1);
      assert StepAt(cfg, run, k);
      var step :| StepTo(cfg, run[k - 1], run[k], step);
      hide AllSigned, StepTo;
      if step.Advance? {
        AdvanceSigned(cfg, run, k - 1, step.tid, step.choice);
      } else {
        OtherSigned(cfg, run, k - 1, step);
      }
    }
  }

  /** Every stored approval or rejection goes back to a call of the operator it names on that action, in an
      earlier state of the run whose clock and whose saved rule it bears. */
  lemma EveryDecisionIsSigned(cfg: Config, run: seq<State>, k: nat, a: Id, x: Approval) returns (j: nat, t: int)
    requires Run(cfg, run) && k < |run| && x in ApprovalsOf(run[k].world.db, a)
    ensures j <= k && t in run[j].threads
    ensures var thread, w := run[j].threads[t], run[j].world;
            if x.approved then
              && thread.ApproveRead? && thread.action.id == a && thread.approver == x.approver
              && a in w.db.decisions && x.policy == w.db.decisions[a].rule
              && x.digest == Digest.ActionApprovalDigest(thread.action, x.policy)
              && x.createdAt == w.now && x.expiresAt == Some(w.now + 900)
            else thread.RejectRead? && thread.action.id == a && thread.approver == x.approver && x.createdAt == w.now
  {
    hide Run, StateInv;
    RunSigned(cfg, run, k);
    assert Signed(run, k, a, x);
    j, t :| 0 <= j <= k && SignedAt(run, j, t, a, x);
  }

  /** So a dispatch goes back to the person who approved it: the operator named by its approval had called for
      just this action, with the content that was dispatched. */
  lemma EveryDispatchWasSigned(cfg: Config, run: seq<State>, k: nat, n: nat) returns (j: nat, t: int)
    requires Run(cfg, run) && k < |run| && n < |run[k].world.log| && run[k].world.log[n].ExecuteCall?
    ensures j <= k && t in run[j].threads
    ensures var call, thread := run[k].world.log[n], run[j].threads[t];
            && call.certificate.Certificate? && thread.ApproveRead?
            && thread.approver == call.certificate.approval.approver && thread.action.SameContent(call.action)
  {
    hide Run, StateInv, WorldInv;
    EveryDispatchApproved(cfg, run, k, n);
    var call := run[k].world.log[n];
    j, t := EveryDecisionIsSigned(cfg, run, k, call.action.id, call.certificate.approval);
    InvariantHolds(cfg, run, j);
    SignedRow(cfg, run[j], t);
    StatusOnlyMovesForward(cfg, run, j, k, call.action.id);
  }

  lemma SignedRow(cfg: Config, s: State, t: int)
    requires StateInv(cfg, s) && t in s.threads && s.threads[t].ApproveRead?
    ensures Row(s.world.db, s.threads[t].action)
  {
    hide WorldInv, OwnersDisjoint, PhaseInv;
    assert ThreadInv(cfg, s.world, s.threads[t]);
  }

  // ----- What policy decided

  /** Actions that policy denied have the status Denied, from the moment the decision is made. */
  ghost predicate DenialsHold(s: State) {
    && (forall a :: a in s.world.db.decisions ==> DenialHolds(s.world.db, s.world.db.decisions[a], a))
    && (forall t, k :: t in s.threads && s.threads[t].Evaluating? && 0 <= k < |s.threads[t].decided|
                       ==> DenialHolds(s.world.db, s.threads[t].decided[k], s.threads[t].decided[k].action))
  }

  predicate DenialHolds(db: Database, decision: Decision, a: Id) {
    decision.action == a && (decision.kind == Deny ==> a in db.actions && db.actions[a].status == Denied)
  }

  ghost predicate SameDecisions(db: Database, write: Write) {
    write.Done? ==> write.db.decisions == db.decisions
  }

  lemma WritesKeepDecisions(db: Database)
    ensures forall i, from, to :: SameDecisions(db, Transition(db, i, from, to))
    ensures forall a, status :: SameDecisions(db, UpdateCandidateActionStatus(db, a, status))
    ensures forall r, verdict :: SameDecisions(db, SaveVerificationResult(db, r, verdict))
    ensures forall r :: SameDecisions(db, SaveExecutionRecord(db, r))
    ensures forall r :: SameDecisions(db, SaveRollbackRecord(db, r))
    ensures forall i, a, r :: SameDecisions(db, ClaimExecution(db, i, a, r))
  {
  }

  lemma ApprovalKeepsDecisions(db: Database, i: Id, record: Approval, from: ActionStatus, to: ActionStatus, expected: Option<IncidentState>, next: Option<IncidentState>)
    ensures SameDecisions(db, DecideApproval(db, i, record, from, to, expected, next))
  {
  }

  /** Only the end of an evaluation saves decisions, and only an evaluation makes one: it denies the action it
      decides against. */
  ghost predicate Decides(w: World, thread: Thread, outcome: Outcome) {
    !outcome.Blocked? ==>
      && (forall a :: a in outcome.world.db.decisions ==>
            || (a in w.db.decisions && outcome.world.db.decisions[a] == w.db.decisions[a])
            || (thread.Evaluating? && a == outcome.world.db.decisions[a].action && outcome.world.db.decisions[a] in thread.decided))
      && (outcome.Running? && outcome.thread.Evaluating? ==>
            forall k :: 0 <= k < |outcome.thread.decided| ==>
              || (thread.Evaluating? && outcome.thread.decided[k] in thread.decided)
              || DenialHolds(outcome.world.db, outcome.thread.decided[k], outcome.thread.decided[k].action))
  }

  lemma EvaluationDecides(cfg: Config, w: World, thread: Thread, choice: Choice)
    requires thread.Evaluating?
    ensures Decides(w, thread, ThreadStep(cfg, w, thread, choice))
  {
    hide Policy.Evaluate, SavePolicyDecisions, DecidedIds, Transition, RefreshTarget;
    var Evaluating(incident, todo, decided) := thread;
    if todo == [] {
      SaveDecisionsFrame(w.db, decided);
      SavedUnderAction(w.db, decided);
    } else {
      Policy.EvaluateGatesEverything(cfg.catalog, cfg.topology, todo[0], incident.environment, w.killed);
    }
  }

  lemma {:induction false} SavedUnderAction(db: Database, decided: seq<Decision>)
    ensures var db' := SavePolicyDecisions(db, decided);
            forall a :: a in db'.decisions ==>
              || (a in db.decisions && db'.decisions[a] == db.decisions[a])
              || (db'.decisions[a].action == a && db'.decisions[a] in decided)
  {
    if decided != [] {
      var before, last := decided[..|decided| - 1], decided[|decided| - 1];
      SavedUnderAction(db, before);
      assert decided == before + [last];
    }
  }

  lemma TriageDecides(cfg: Config, w: World, thread: Thread, choice: Choice)
    requires thread.TriageRead? || thread.TriageCollected? || thread.TriageProposed?
    ensures Decides(w, thread, ThreadStep(cfg, w, thread, choice))
  {
    hide Transition, SaveCandidateActions, Evaluable;
    WritesKeepDecisions(w.db);
    if thread.TriageCollected? && choice.Generated? && FreshActions(w.db, thread.subject.id, choice.actions) {
      SaveActionsFrame(w.db, choice.actions);
    }
  }

  ghost predicate NoDecision(w: World, outcome: Outcome) {
    !outcome.Blocked? ==> outcome.world.db.decisions == w.db.decisions && (outcome.Running? ==> !outcome.thread.Evaluating?)
  }

  lemma ApprovalDecidesNot(cfg: Config, w: World, thread: Thread, choice: Choice)
    requires thread.ApproveRead? || thread.ApproveDecided? || thread.ApproveReady?
    ensures NoDecision(w, ThreadStep(cfg, w, thread, choice))
  {
    hide DecideApproval, ApprovalRecord, CanTransition;
    if thread.ApproveReady? {
      ApprovalKeepsDecisions(w.db, thread.action.incident, thread.record, Awaiting, ActionApproved, Some(thread.from), Some(Approved));
    }
  }

  lemma RejectionDecidesNot(cfg: Config, w: World, thread: Thread, choice: Choice)
    requires thread.RejectRead? || thread.RejectReady? || thread.Refreshing?
    ensures NoDecision(w, ThreadStep(cfg, w, thread, choice))
  {
    hide DecideApproval, RefreshTarget, RejectionRecord;
    if thread.RejectReady? {
      ApprovalKeepsDecisions(w.db, thread.action.incident, thread.record, Awaiting, Denied, None, None);
    }
  }

  lemma ExecutionDecidesNot(cfg: Config, w: World, thread: Thread, choice: Choice)
    requires BeforeClaim(thread) || thread.Dispatching? || thread.Calling?
    ensures NoDecision(w, ThreadStep(cfg, w, thread, choice))
  {
    hide ClaimExecution, MayExecute, ValidApproval, InScope, Duplicate, Attempts, Executable, E.Current, Digest.ActionApprovalDigest;
    WritesKeepDecisions(w.db);
  }

  lemma SettlingDecidesNot(cfg: Config, w: World, thread: Thread, choice: Choice)
    requires thread.Moving? || thread.Saving? || thread.Marking? || thread.Settling?
    ensures NoDecision(w, ThreadStep(cfg, w, thread, choice))
  {
    hide Transition, UpdateCandidateActionStatus, SaveExecutionRecord, IncidentStateAfter, ActionStatusAfter;
    WritesKeepDecisions(w.db);
    match thread
    case Moving(_, _, _) =>
    case Saving(_, _, _) =>
    case Marking(_, _, _) =>
    case Settling(_, _, _) =>
  }

  lemma VerificationDecidesNot(cfg: Config, w: World, thread: Thread, choice: Choice)
    requires thread.Verifying? || thread.Judged? || thread.Concluding? || thread.Unwinding?
    ensures NoDecision(w, ThreadStep(cfg, w, thread, choice))
  {
    hide Transition, UpdateCandidateActionStatus, SaveVerificationResult, HasRollbackPlan;
    WritesKeepDecisions(w.db);
    match thread
    case Verifying(_, _) =>
    case Judged(_, _, _, _) =>
    case Concluding(_, _, _, _) =>
    case Unwinding(_, _, _, _) =>
  }

  lemma RollbackDecidesNot(cfg: Config, w: World, thread: Thread, choice: Choice)
    requires Compensation(thread)
    ensures NoDecision(w, ThreadStep(cfg, w, thread, choice))
  {
    hide UpdateCandidateActionStatus, SaveRollbackRecord;
    WritesKeepDecisions(w.db);
  }

  lemma DecidesNothing(w: World, thread: Thread, outcome: Outcome)
    ensures NoDecision(w, outcome) ==> Decides(w, thread, outcome)
  {
  }

  lemma StepDecides(cfg: Config, w: World, thread: Thread, choice: Choice)
    ensures Decides(w, thread, ThreadStep(cfg, w, thread, choice))
  {
    hide ThreadStep, NoDecision, Decides;
    assert NoDecision(w, ThreadStep(cfg, w, thread, choice)) ==> Decides(w, thread, ThreadStep(cfg, w, thread, choice)) by {
      DecidesNothing(w, thread, ThreadStep(cfg, w, thread, choice));
    }
    if thread.Evaluating? {
      EvaluationDecides(cfg, w, thread, choice);
    } else if thread.TriageRead? || thread.TriageCollected? || thread.TriageProposed? {
      TriageDecides(cfg, w, thread, choice);
    } else if thread.ApproveRead? || thread.ApproveDecided? || thread.ApproveReady? {
      ApprovalDecidesNot(cfg, w, thread, choice);
    } else if thread.RejectRead? || thread.RejectReady? || thread.Refreshing? {
      RejectionDecidesNot(cfg, w, thread, choice);
    } else if BeforeClaim(thread) || thread.Dispatching? || thread.Calling? {
      ExecutionDecidesNot(cfg, w, thread, choice);
    } else if Compensation(thread) {
      RollbackDecidesNot(cfg, w, thread, choice);
    } else if thread.Verifying? || thread.Judged? || thread.Concluding? || thread.Unwinding? {
      VerificationDecidesNot(cfg, w, thread, choice);
    } else {
      SettlingDecidesNot(cfg, w, thread, choice);
    }
  }

  /** A denied action stays denied. */
  lemma DenialKept(cfg: Config, s: State, s': State, decision: Decision, a: Id)
    requires StateInv(cfg, s) && Next(cfg, s, s') && DenialHolds(s.world.db, decision, a)
    ensures DenialHolds(s'.world.db, decision, a)
  {
    hide StateInv, Next;
    if decision.kind == Deny {
      StatusStep(cfg, s, s', a);
    }
  }

  lemma AdvanceDenials(cfg: Config, s: State, s': State, tid: int, choice: Choice)
    requires StateInv(cfg, s) && DenialsHold(s) && StepTo(cfg, s, s', Advance(tid, choice))
    ensures DenialsHold(s')
  {
    hide StateInv, ThreadStep, DenialHolds, Startable, StartedExecutions;
    var thread := s.threads[tid];
    StepDecides(cfg, s.world, thread, choice);
    assert Next(cfg, s, s');
    forall a | a in s'.world.db.decisions ensures DenialHolds(s'.world.db, s'.world.db.decisions[a], a) {
      var decision := s'.world.db.decisions[a];
      assert DenialHolds(s.world.db, decision, a) by {
        if !(a in s.world.db.decisions && decision == s.world.db.decisions[a]) {
          var k :| 0 <= k < |thread.decided| && thread.decided[k] == decision;
        }
      }
      DenialKept(cfg, s, s', decision, a);
    }
    forall t, k | t in s'.threads && s'.threads[t].Evaluating? && 0 <= k < |s'.threads[t].decided|
      ensures DenialHolds(s'.world.db, s'.threads[t].decided[k], s'.threads[t].decided[k].action)
    {
      var decision := s'.threads[t].decided[k];
      if t != tid {
        assert s.threads[t] == s'.threads[t];
        DenialKept(cfg, s, s', decision, decision.action);
      } else if thread.Evaluating? && decision in thread.decided {
        var j :| 0 <= j < |thread.decided| && thread.decided[j] == decision;
        DenialKept(cfg, s, s', decision, decision.action);
      }
    }
  }

  lemma OtherDenials(cfg: Config, s: State, s': State, step: Step)
    requires StateInv(cfg, s) && DenialsHold(s) && StepTo(cfg, s, s', step) && !step.Advance?
    ensures DenialsHold(s')
  {
    hide StateInv, DenialHolds, StartedExecutions;
    assert Next(cfg, s, s');
    forall a | a in s'.world.db.decisions ensures DenialHolds(s'.world.db, s'.world.db.decisions[a], a) {
      DenialKept(cfg, s, s', s.world.db.decisions[a], a);
    }
    forall t, k | t in s'.threads && s'.threads[t].Evaluating? && 0 <= k < |s'.threads[t].decided|
      ensures DenialHolds(s'.world.db, s'.threads[t].decided[k], s'.threads[t].decided[k].action)
    {
      assert t in s.threads && s.threads[t] == s'.threads[t];
      DenialKept(cfg, s, s', s'.threads[t].decided[k], s'.threads[t].decided[k].action);
    }
  }

  lemma {:induction false} RunDenials(cfg: Config, run: seq<State>, k: nat)
    requires Run(cfg, run) && k < |run|
    ensures DenialsHold(run[k])
  {
    if k > 0 {
      hide StateInv;
      RunDenials(cfg, run, k - 1);
      InvariantHolds(cfg, run, k - 1);
      assert StepAt(cfg, run, k);
      var step :| StepTo(cfg, run[k - 1], run[k], step);
      hide DenialsHold, StepTo;
      if step.Advance? {
        AdvanceDenials(cfg, run[k - 1], run[k], step.tid, step.choice);
      } else {
        OtherDenials(cfg, run[k - 1], run[k], step);
      }
    }
  }

  /** In every reachable state an action that policy denied is denied; so whatever was dispatched had been put
      before an operator. */
  lemma DeniedIsNeverDispatched(cfg: Config, run: seq<State>, k: nat)
    requires Run(cfg, run) && k < |run|
    ensures var db := run[k].world.db;
            && (forall a :: a in db.decisions && db.decisions[a].kind == Deny ==> a in db.actions && db.actions[a].status == Denied)
            && forall n :: 0 <= n < |run[k].world.log| && run[k].world.log[n].ExecuteCall? ==>
                 && run[k].world.log[n].action.id in db.decisions
                 && db.decisions[run[k].world.log[n].action.id].kind == RequireApproval
  {
    hide Run, StateInv;
    RunDenials(cfg, run, k);
    InvariantHolds(cfg, run, k);
    forall n | 0 <= n < |run[k].world.log| && run[k].world.log[n].ExecuteCall?
      ensures run[k].world.log[n].action.id in run[k].world.db.decisions
      ensures run[k].world.db.decisions[run[k].world.log[n].action.id].kind == RequireApproval
    {
      EveryDispatchApproved(cfg, run, k, n);
      DispatchedIsClaimed(cfg, run[k], n);
    }
  }

  lemma DispatchedIsClaimed(cfg: Config, s: State, n: nat)
    requires StateInv(cfg, s) && n < |s.world.log| && s.world.log[n].ExecuteCall?
    ensures var a := s.world.log[n].action.id; a in s.world.db.actions && s.world.db.actions[a].status != Denied
  {
    hide ThreadsInv, OwnersDisjoint, PhaseInv, CallsBounded, ApprovalsSound, TargetsExclusive;
    var call := s.world.log[n];
    assert CallSound(s.world.db, call);
    assert RecordMatchesStatus(s.world.db, call.action.id);
  }

  // ----- What the catalog allows

  /** The entry is executable and not of high risk, and the incident's environment and the target are listed. */
  ghost predicate Vetted(cfg: Config, db: Database, action: Action) {
    Enabled(cfg, action) && Listed(cfg, db, action)
  }

  ghost predicate EnvironmentsKept(db: Database, db': Database) {
    forall i :: i in db.incidents ==> i in db'.incidents && db'.incidents[i].environment == db.incidents[i].environment
  }

  ghost predicate KeepsEnvironments(db: Database, write: Write) {
    write.Done? ==> EnvironmentsKept(db, write.db)
  }

  lemma WritesKeepEnvironments(db: Database)
    ensures EnvironmentsKept(db, db)
    ensures forall i, from, to :: KeepsEnvironments(db, Transition(db, i, from, to))
    ensures forall a, status :: KeepsEnvironments(db, UpdateCandidateActionStatus(db, a, status))
    ensures forall r, verdict :: KeepsEnvironments(db, SaveVerificationResult(db, r, verdict))
    ensures forall r :: KeepsEnvironments(db, SaveExecutionRecord(db, r))
    ensures forall r :: KeepsEnvironments(db, SaveRollbackRecord(db, r))
    ensures forall i, a, r :: KeepsEnvironments(db, ClaimExecution(db, i, a, r))
  {
  }

  lemma DecisionKeepsEnvironments(db: Database, i: Id, record: Approval, from: ActionStatus, to: ActionStatus, expected: Option<IncidentState>, next: Option<IncidentState>)
    ensures KeepsEnvironments(db, DecideApproval(db, i, record, from, to, expected, next))
  {
  }

  ghost predicate Stays(w: World, outcome: Outcome) {
    !outcome.Blocked? ==> EnvironmentsKept(w.db, outcome.world.db)
  }

  lemma OperatorsStay(cfg: Config, w: World, thread: Thread, choice: Choice)
    requires HasAction(thread) || thread.Refreshing?
    ensures Stays(w, ThreadStep(cfg, w, thread, choice))
  {
    hide DecideApproval, RefreshTarget, ApprovalRecord, RejectionRecord, EnvironmentsKept;
    WritesKeepEnvironments(w.db);
    match thread
    case ApproveReady(action, record, from) =>
      DecisionKeepsEnvironments(w.db, action.incident, record, Awaiting, ActionApproved, Some(from), Some(Approved));
    case RejectReady(action, record, _) =>
      DecisionKeepsEnvironments(w.db, action.incident, record, Awaiting, Denied, None, None);
    case _ =>
  }

  lemma TriageStays(cfg: Config, w: World, thread: Thread, choice: Choice)
    requires thread.TriageRead? || thread.TriageCollected? || thread.TriageProposed? || thread.Evaluating?
    ensures Stays(w, ThreadStep(cfg, w, thread, choice))
  {
    hide Transition, UpdateCandidateActionStatus, SaveCandidateActions, SavePolicyDecisions, Policy.Evaluate, Evaluable, Ids, DecidedIds;
    WritesKeepEnvironments(w.db);
    if thread.TriageCollected? && choice.Generated? && FreshActions(w.db, thread.subject.id, choice.actions) {
      SaveActionsFrame(w.db, choice.actions);
    }
    if thread.Evaluating? {
      SaveDecisionsFrame(w.db, thread.decided);
    }
  }

  lemma ExecutionStays(cfg: Config, w: World, thread: Thread, choice: Choice)
    requires BeforeClaim(thread) || thread.Dispatching? || thread.Calling?
    ensures Stays(w, ThreadStep(cfg, w, thread, choice))
  {
    hide ClaimExecution, MayExecute, ValidApproval, InScope, Duplicate, Attempts, Executable, E.Current, Digest.ActionApprovalDigest, EnvironmentsKept;
    WritesKeepEnvironments(w.db);
  }

  lemma LateStays(cfg: Config, w: World, thread: Thread, choice: Choice)
    requires AfterDispatch(thread) && !Compensation(thread)
    ensures Stays(w, ThreadStep(cfg, w, thread, choice))
  {
    hide Transition, UpdateCandidateActionStatus, SaveExecutionRecord, SaveVerificationResult, HasRollbackPlan, IncidentStateAfter, ActionStatusAfter,
         EnvironmentsKept;
    WritesKeepEnvironments(w.db);
    match thread
    case Moving(_, _, _) =>
    case Saving(_, _, _) =>
    case Marking(_, _, _) =>
    case Settling(_, _, _) =>
    case Verifying(_, _) =>
    case Judged(_, _, _, _) =>
    case Concluding(_, _, _, _) =>
    case Unwinding(_, _, _, _) =>
  }

  lemma RollbackStays(cfg: Config, w: World, thread: Thread, choice: Choice)
    requires Compensation(thread)
    ensures Stays(w, ThreadStep(cfg, w, thread, choice))
  {
    hide UpdateCandidateActionStatus, SaveRollbackRecord, EnvironmentsKept;
    WritesKeepEnvironments(w.db);
  }

  lemma StepStays(cfg: Config, w: World, thread: Thread, choice: Choice)
    ensures Stays(w, ThreadStep(cfg, w, thread, choice))
  {
    hide ThreadStep, Stays;
    if thread.TriageRead? || thread.TriageCollected? || thread.TriageProposed? || thread.Evaluating? {
      TriageStays(cfg, w, thread, choice);
    } else if HasAction(thread) || thread.Refreshing? {
      OperatorsStay(cfg, w, thread, choice);
    } else if BeforeClaim(thread) || thread.Dispatching? || thread.Calling? {
      ExecutionStays(cfg, w, thread, choice);
    } else if Compensation(thread) {
      RollbackStays(cfg, w, thread, choice);
    } else {
      LateStays(cfg, w, thread, choice);
    }
  }

  /** A call is let in to its claim only with a vetted action. */
  ghost predicate LetsInVetted(cfg: Config, w: World, thread: Thread, outcome: Outcome) {
    outcome.Running? && Admitted(outcome.thread) ==>
      if Admitted(thread) then outcome.thread.action == thread.action else Vetted(cfg, w.db, outcome.thread.action)
  }

  lemma StepLetsInVetted(cfg: Config, w: World, thread: Thread, choice: Choice)
    ensures LetsInVetted(cfg, w, thread, ThreadStep(cfg, w, thread, choice))
  {
    hide Duplicate, Attempts, CooldownOf, ClaimExecution, Executable, Digest.ActionApprovalDigest, ValidApproval, E.Current;
    if thread.ExecRead? || thread.ExecListed? || thread.ExecDecision? || Carries(thread) {
    } else {
      hide ThreadStep;
      OthersCarryNothing(cfg, w, thread, choice);
    }
  }

  ghost predicate AllVetted(cfg: Config, s: State) {
    && (forall t :: t in s.threads && Admitted(s.threads[t]) ==> Vetted(cfg, s.world.db, s.threads[t].action))
    && (forall n :: 0 <= n < |s.world.log| && s.world.log[n].ExecuteCall? ==> Vetted(cfg, s.world.db, s.world.log[n].action))
  }

  lemma VettedKept(cfg: Config, db: Database, db': Database, action: Action)
    requires Vetted(cfg, db, action) && EnvironmentsKept(db, db')
    ensures Vetted(cfg, db', action)
  {
  }

  lemma AdvanceVetted(cfg: Config, s: State, s': State, tid: int, choice: Choice)
    requires AllVetted(cfg, s) && StepTo(cfg, s, s', Advance(tid, choice))
    ensures AllVetted(cfg, s')
  {
    hide ThreadStep, Vetted, EnvironmentsKept, Startable, StartedExecutions;
    var thread := s.threads[tid];
    StepStays(cfg, s.world, thread, choice);
    StepLetsInVetted(cfg, s.world, thread, choice);
    StepLogs(cfg, s.world, thread, choice);
    forall t | t in s'.threads && Admitted(s'.threads[t]) ensures Vetted(cfg, s'.world.db, s'.threads[t].action) {
      assert t != tid || Admitted(thread) ==> Admitted(s.threads[t]) && s'.threads[t].action == s.threads[t].action;
      VettedKept(cfg, s.world.db, s'.world.db, s'.threads[t].action);
    }
    forall n | 0 <= n < |s'.world.log| && s'.world.log[n].ExecuteCall? ensures Vetted(cfg, s'.world.db, s'.world.log[n].action) {
      if n < |s.world.log| {
        assert s'.world.log[n] == s.world.log[n];
      } else {
        assert Admitted(s.threads[tid]);
      }
      VettedKept(cfg, s.world.db, s'.world.db, s'.world.log[n].action);
    }
  }

  lemma OtherVetted(cfg: Config, s: State, s': State, step: Step)
    requires AllVetted(cfg, s) && StepTo(cfg, s, s', step) && !step.Advance?
    ensures AllVetted(cfg, s')
  {
    hide Vetted, StartedExecutions;
    assert EnvironmentsKept(s.world.db, s'.world.db);
    forall t | t in s'.threads && Admitted(s'.threads[t]) ensures Vetted(cfg, s'.world.db, s'.threads[t].action) {
      assert t in s.threads && s'.threads[t] == s.threads[t];
      VettedKept(cfg, s.world.db, s'.world.db, s'.threads[t].action);
    }
    forall n | 0 <= n < |s'.world.log| && s'.world.log[n].ExecuteCall? ensures Vetted(cfg, s'.world.db, s'.world.log[n].action) {
      assert s'.world.log[n] == s.world.log[n];
      VettedKept(cfg, s.world.db, s'.world.db, s'.world.log[n].action);
    }
  }

  lemma {:induction false} RunVetted(cfg: Config, run: seq<State>, k: nat)
    requires Run(cfg, run) && k < |run|
    ensures AllVetted(cfg, run[k])
  {
    if k > 0 {
      RunVetted(cfg, run, k - 1);
      assert StepAt(cfg, run, k);
      var step :| StepTo(cfg, run[k - 1], run[k], step);
      hide AllVetted, StepTo;
      if step.Advance? {
        AdvanceVetted(cfg, run[k - 1], run[k], step.tid, step.choice);
      } else {
        OtherVetted(cfg, run[k - 1], run[k], step);
      }
    }
  }

  /** Whatever was dispatched in a run has an entry that is executable, not of high risk, and on whose lists
      its incident's environment and its target are. */
  lemma EveryDispatchIsCatalogued(cfg: Config, run: seq<State>, k: nat, n: nat)
    requires Run(cfg, run) && k < |run| && n < |run[k].world.log| && run[k].world.log[n].ExecuteCall?
    ensures var db, action := run[k].world.db, run[k].world.log[n].action;
            && action.actionType in cfg.catalog && action.incident in db.incidents
            && var d := cfg.catalog[action.actionType];
               && d.executable && d.risk != "high"
               && (d.environments == [] || db.incidents[action.incident].environment in d.environments)
               && (d.targets == [] || action.target in d.targets)
  {
    hide Run;
    RunVetted(cfg, run, k);
  }
}
