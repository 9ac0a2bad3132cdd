/** Every atomic step of every call keeps the invariant and respects what others own. */
module ProtocolSteps {
  import opened Domain
  import opened StateMachine
  import opened Tables
  import opened Protocol
  import opened ProtocolInvariant
  import opened ProtocolWrites
  import Digest
  import E = EvidenceItems
  import Policy

  lemma Unchanged(cfg: Config, w: World, own: set<Id>)
    requires WorldInv(cfg, w)
    ensures Guarantee(w, w, own)
  {
    SideTableSound(cfg, w, w, own);
  }

  lemma DigestIgnoresStatus(a: Action, b: Action, rule: string)
    requires a.SameContent(b)
    ensures Digest.ActionApprovalDigest(a, rule) == Digest.ActionApprovalDigest(b, rule)
  {
  }

  lemma CoversIgnoresStatus(db: Database, record: Approval, a: Action, b: Action)
    requires a.SameContent(b) && Covers(db, record, a)
    ensures Covers(db, record, b)
  {
    DigestIgnoresStatus(a, b, record.policy);
  }

  // ----- Approval

  lemma ApproveReadGood(cfg: Config, w: World, thread: Thread)
    requires thread.ApproveRead? && WorldInv(cfg, w) && ThreadInv(cfg, w, thread)
    ensures Good(cfg, w, thread, StepApprove(w, thread))
  {
    hide WorldInv, Guarantee;
    Unchanged(cfg, w, {});
  }

  lemma ApproveDecidedGood(cfg: Config, w: World, thread: Thread)
    requires thread.ApproveDecided? && WorldInv(cfg, w) && ThreadInv(cfg, w, thread)
    ensures Good(cfg, w, thread, StepApprove(w, thread))
  {
    hide WorldInv, Guarantee;
    Unchanged(cfg, w, {});
  }

  lemma ApproveReadyGood(cfg: Config, w: World, thread: Thread)
    requires thread.ApproveReady? && WorldInv(cfg, w) && ThreadInv(cfg, w, thread)
    ensures Good(cfg, w, thread, StepApprove(w, thread))
  {
    hide WorldInv, Guarantee;
    var ApproveReady(action, record, from) := thread;
    if DecideApproval(w.db, action.incident, record, Awaiting, ActionApproved, Some(from), Some(Approved)).Done? {
      CoversIgnoresStatus(w.db, record, action, w.db.actions[action.id]);
      DecideSound(cfg, w, action.incident, record, ActionApproved, Some(from), Some(Approved), {});
    } else {
      Unchanged(cfg, w, {});
    }
  }

  lemma RejectReadGood(cfg: Config, w: World, thread: Thread)
    requires thread.RejectRead? && WorldInv(cfg, w) && ThreadInv(cfg, w, thread)
    ensures Good(cfg, w, thread, StepReject(w, thread))
  {
    hide WorldInv, Guarantee;
    Unchanged(cfg, w, {});
  }

  lemma RejectReadyGood(cfg: Config, w: World, thread: Thread)
    requires thread.RejectReady? && WorldInv(cfg, w) && ThreadInv(cfg, w, thread)
    ensures Good(cfg, w, thread, StepReject(w, thread))
  {
    hide WorldInv, Guarantee, DecideApproval, Nonblank;
    var RejectReady(action, record, from) := thread;
    if DecideApproval(w.db, action.incident, record, Awaiting, Denied, None, None).Done? {
      DecideSound(cfg, w, action.incident, record, Denied, None, None, {});
    } else {
      Unchanged(cfg, w, {});
    }
  }

  lemma RefreshingGood(cfg: Config, w: World, thread: Thread)
    requires thread.Refreshing? && WorldInv(cfg, w)
    ensures Good(cfg, w, thread, StepIncident(w, thread))
  {
    hide WorldInv, Guarantee;
    Unchanged(cfg, w, {});
  }

  lemma MovingGood(cfg: Config, w: World, thread: Thread)
    requires thread.Moving? && WorldInv(cfg, w)
    ensures Good(cfg, w, thread, StepIncident(w, thread))
  {
    hide WorldInv, Guarantee;
    if Transition(w.db, thread.incident, thread.from, thread.to).Done? {
      TransitionSound(cfg, w, thread.incident, thread.from, thread.to, {});
    } else {
      Unchanged(cfg, w, {});
    }
  }

  // ----- Triage

  lemma {:induction false} EvaluableKeeps(db: Database, actions: seq<Action>)
    requires ProposedInv(db, actions)
    ensures EvaluatingInv(db, Evaluable(actions), []) && Ids(Evaluable(actions)) <= Ids(actions)
  {
    if actions != [] {
      var before, last := actions[..|actions| - 1], actions[|actions| - 1];
      assert actions == before + [last];
      forall k | 0 <= k < |before| ensures before[k].status in {Proposed, Invalid} && Undecided(db, before[k], before[k].status) {
        assert actions[k] == before[k];
      }
      forall j, k | 0 <= j < k < |before| ensures before[j].id != before[k].id {
        assert actions[j].id != actions[k].id;
      }
      EvaluableKeeps(db, before);
      IdsSnoc(before, last);
      var rest := Evaluable(before);
      if last.status != Invalid {
        IdsSnoc(rest, last);
        forall k | 0 <= k < |rest| ensures rest[k].id != last.id {
          assert rest[k].id in Ids(rest);
          var j :| 0 <= j < |before| && before[j].id == rest[k].id;
          assert actions[j].id != actions[|actions| - 1].id;
        }
        assert Undecided(db, last, Proposed);
      }
    }
  }

  lemma TriageReadGood(cfg: Config, w: World, thread: Thread, choice: Choice)
    requires thread.TriageRead? && WorldInv(cfg, w)
    ensures Good(cfg, w, thread, StepTriage(cfg, w, thread, choice))
  {
    hide WorldInv, Guarantee, Transition;
    var TriageRead(incident) := thread;
    if Transition(w.db, incident.id, incident.state, Triaging).Done? {
      TransitionSound(cfg, w, incident.id, incident.state, Triaging, {});
    } else {
      Unchanged(cfg, w, {});
    }
  }

  lemma TriageCollectedGood(cfg: Config, w: World, thread: Thread, choice: Choice)
    requires thread.TriageCollected? && WorldInv(cfg, w)
    ensures Good(cfg, w, thread, StepTriage(cfg, w, thread, choice))
  {
    hide WorldInv, Guarantee, ProposedInv, SaveCandidateActions;
    var TriageCollected(incident) := thread;
    if choice.Generated? && FreshActions(w.db, incident.id, choice.actions) {
      SaveActionsSound(cfg, w, incident.id, choice.actions);
      forall a | a in Ids(choice.actions) ensures a !in w.db.actions {
        var k :| 0 <= k < |choice.actions| && choice.actions[k].id == a;
        assert choice.actions[k].id !in w.db.actions;
      }
    }
  }

  lemma TriageProposedGood(cfg: Config, w: World, thread: Thread, choice: Choice)
    requires thread.TriageProposed? && WorldInv(cfg, w) && ThreadInv(cfg, w, thread)
    ensures Good(cfg, w, thread, StepTriage(cfg, w, thread, choice))
  {
    hide WorldInv, Guarantee, Transition, ProposedInv, EvaluatingInv, SameTables, Evaluable, Ids;
    var TriageProposed(incident, actions) := thread;
    if Evaluable(actions) != [] && Transition(w.db, incident.id, Triaging, ActionProposed).Done? {
      StartEvaluation(cfg, w, incident, actions);
    } else {
      Unchanged(cfg, w, Ids(actions));
    }
  }

  lemma StartEvaluation(cfg: Config, w: World, incident: Incident, actions: seq<Action>)
    requires WorldInv(cfg, w) && ProposedInv(w.db, actions)
    requires Transition(w.db, incident.id, Triaging, ActionProposed).Done?
    ensures var w' := w.(db := Transition(w.db, incident.id, Triaging, ActionProposed).db);
            && WorldInv(cfg, w') && Guarantee(w, w', Ids(actions))
            && EvaluatingInv(w'.db, Evaluable(actions), [])
            && Ids(Evaluable(actions)) + DecidedIds([]) <= Ids(actions)
  {
    hide WorldInv, Guarantee;
    TransitionSound(cfg, w, incident.id, Triaging, ActionProposed, Ids(actions));
    var db' := Transition(w.db, incident.id, Triaging, ActionProposed).db;
    ProposedOnSameTables(w.db, db', actions);
    EvaluableKeeps(db', actions);
    assert DecidedIds([]) == {};
  }

  lemma ProposedOnSameTables(db: Database, db': Database, actions: seq<Action>)
    requires ProposedInv(db, actions) && SameTables(db, db')
    ensures ProposedInv(db', actions)
  {
    forall k | 0 <= k < |actions| ensures Undecided(db', actions[k], actions[k].status) {
      assert Undecided(db, actions[k], actions[k].status);
    }
  }

  lemma DecideOne(db: Database, db': Database, todo: seq<Action>, decided: seq<Decision>, decision: Decision)
    requires todo != [] && EvaluatingInv(db, todo, decided)
    requires db' == SetStatus(db, todo[0].id, Policy.StatusFromDecision(decision))
    requires decision.action == todo[0].id && decision.kind != Allow
    ensures EvaluatingInv(db', todo[1..], decided + [decision])
    ensures Ids(todo[1..]) + DecidedIds(decided + [decision]) <= Ids(todo) + DecidedIds(decided)
  {
    var rest, more := todo[1..], decided + [decision];
    assert Undecided(db, todo[0], Proposed);
    forall k | 0 <= k < |rest| ensures Undecided(db', rest[k], Proposed) && rest[k].id in Ids(todo) {
      assert Undecided(db, todo[k + 1], Proposed) && todo[0].id != todo[k + 1].id;
      assert todo[k + 1].id in Ids(todo);
    }
    DecidedIdsSnoc(decided, decision);
    assert todo[0].id in Ids(todo);
  }

  lemma EvaluateOneSound(cfg: Config, w: World, todo: seq<Action>, decided: seq<Decision>, decision: Decision)
    requires WorldInv(cfg, w) && todo != [] && EvaluatingInv(w.db, todo, decided)
    requires decision.action == todo[0].id && decision.kind != Allow
    ensures var reply := UpdateCandidateActionStatus(w.db, todo[0].id, Policy.StatusFromDecision(decision));
            && reply.Done?
            && var w' := w.(db := reply.db);
               var own := Ids(todo) + DecidedIds(decided);
               && WorldInv(cfg, w') && Guarantee(w, w', own) && EvaluatingInv(w'.db, todo[1..], decided + [decision])
               && Ids(todo[1..]) + DecidedIds(decided + [decision]) <= own
  {
    hide WorldInv, Guarantee;
    var status := Policy.StatusFromDecision(decision);
    assert Undecided(w.db, todo[0], Proposed);
    assert todo[0].id in Ids(todo);
    RollbackCalledOnlyAfterFailure(cfg, w, todo[0].id);
    SetStatusSound(cfg, w, todo[0].id, status, Ids(todo) + DecidedIds(decided));
    DecideOne(w.db, SetStatus(w.db, todo[0].id, status), todo, decided, decision);
  }

  lemma EvaluatingGood(cfg: Config, w: World, thread: Thread, choice: Choice)
    requires thread.Evaluating? && WorldInv(cfg, w) && ThreadInv(cfg, w, thread)
    ensures Good(cfg, w, thread, StepTriage(cfg, w, thread, choice))
  {
    hide WorldInv, Guarantee, EvaluatingInv, UpdateCandidateActionStatus, Policy.Evaluate, Policy.Approvable, Ids, DecidedIds;
    var Evaluating(incident, todo, decided) := thread;
    if todo == [] {
      SaveDecisionsSound(cfg, w, decided, Owned(thread));
    } else {
      var decision := Policy.Evaluate(cfg.catalog, cfg.topology, todo[0], incident.environment, w.killed);
      Policy.EvaluateGatesEverything(cfg.catalog, cfg.topology, todo[0], incident.environment, w.killed);
      EvaluateOneSound(cfg, w, todo, decided, decision);
    }
  }

  // ----- Execution up to the claim

  lemma {:induction false} ValidApprovalFound(records: seq<Approval>, digest: string, rule: string, now: int)
    ensures var found := ValidApproval(records, digest, rule, now);
            found.Some? ==> && found.value in records && found.value.approved && found.value.digest == digest
                            && found.value.policy == rule && found.value.expiresAt.Some? && now < found.value.expiresAt.value
  {
    if records != [] && !records[|records| - 1].approved {
      ValidApprovalFound(records[..|records| - 1], digest, rule, now);
    }
  }

  /** An approval that validateApproval accepts is the one that approved the stored row. */
  lemma ValidApprovalCertifies(cfg: Config, w: World, action: Action, decision: Decision)
    requires WorldInv(cfg, w) && Row(w.db, action) && action.id in w.db.decisions && w.db.decisions[action.id] == decision
    requires ValidApproval(ApprovalsOf(w.db, action.id), Digest.ActionApprovalDigest(action, decision.rule), decision.rule, w.now).Some?
    ensures var approval := ValidApproval(ApprovalsOf(w.db, action.id), Digest.ActionApprovalDigest(action, decision.rule), decision.rule, w.now).value;
            Certified(w.db, action, Certificate(approval, decision.rule, w.now))
  {
    var records := ApprovalsOf(w.db, action.id);
    ValidApprovalFound(records, Digest.ActionApprovalDigest(action, decision.rule), decision.rule, w.now);
    assert ApprovalsSoundFor(w.db, action.id);
    CoversIgnoresStatus(w.db, records[0], w.db.actions[action.id], action);
  }

  lemma ExecReadGood(cfg: Config, w: World, thread: Thread, choice: Choice)
    requires (thread.ExecRead? || thread.ExecListed?) && WorldInv(cfg, w) && ThreadInv(cfg, w, thread)
    ensures Good(cfg, w, thread, StepExecute(cfg, w, thread, choice))
  {
    hide WorldInv, Guarantee, Row, Duplicate, Attempts, MayExecute;
    Unchanged(cfg, w, {});
  }

  lemma ExecDecisionGood(cfg: Config, w: World, thread: Thread, choice: Choice)
    requires thread.ExecDecision? && WorldInv(cfg, w) && ThreadInv(cfg, w, thread)
    ensures Good(cfg, w, thread, StepExecute(cfg, w, thread, choice))
  {
    hide WorldInv, Guarantee, Row, Certified, Digest.ActionApprovalDigest, ValidApproval, ApprovalsOf;
    Unchanged(cfg, w, {});
    var ExecDecision(action, initiator, decision) := thread;
    if ValidApproval(ApprovalsOf(w.db, action.id), Digest.ActionApprovalDigest(action, decision.rule), decision.rule, w.now).Some? {
      ValidApprovalCertifies(cfg, w, action, decision);
    }
  }

  lemma ExecClearedGood(cfg: Config, w: World, thread: Thread, choice: Choice)
    requires (thread.ExecCleared? || thread.ExecArmed?) && WorldInv(cfg, w) && ThreadInv(cfg, w, thread)
    ensures Good(cfg, w, thread, StepExecute(cfg, w, thread, choice))
  {
    hide WorldInv, Guarantee, Row, Certified, MayExecute, InScope, E.Current;
    Unchanged(cfg, w, {});
  }

  lemma ExecReadyGood(cfg: Config, w: World, thread: Thread, choice: Choice)
    requires thread.ExecReady?
    requires WorldInv(cfg, w) && ThreadInv(cfg, w, thread)
    ensures Good(cfg, w, thread, StepExecute(cfg, w, thread, choice))
  {
    hide WorldInv, Guarantee, ThreadInv, MayExecute, ClaimExecution;
    Unchanged(cfg, w, {});
    var action := thread.action;
    if MayExecute(cfg, action) && choice.Fresh? && choice.id !in w.db.executions {
      var record := Execution(choice.id, action.id, ExecuteKey(action.id), thread.initiator, ExecStarted, w.now, w.now);
      if ClaimExecution(w.db, action.incident, action.id, record).Done? {
        ClaimGood(cfg, w, thread, record);
      }
    }
  }

  /** What a granted claim leaves, and what its call knows then. */
  lemma ClaimGood(cfg: Config, w: World, thread: Thread, record: Execution)
    requires thread.ExecReady? && WorldInv(cfg, w) && ThreadInv(cfg, w, thread)
    requires record.id !in w.db.executions && record.action == thread.action.id && record.key == ExecuteKey(thread.action.id)
    requires record.status == ExecStarted && ClaimExecution(w.db, thread.action.incident, thread.action.id, record).Done?
    ensures var w' := w.(db := ClaimExecution(w.db, thread.action.incident, thread.action.id, record).db);
            && WorldInv(cfg, w') && Guarantee(w, w', {})
            && ThreadInv(cfg, w', Dispatching(thread.action, record, thread.certificate, 0))
            && Acquires(w.db, {}, {thread.action.id})
  {
    hide WorldInv, Guarantee, Certified;
    var action := thread.action;
    var w' := w.(db := ClaimExecution(w.db, action.incident, action.id, record).db);
    ClaimSound(cfg, w, action.incident, action.id, record);
    CertifiedKept(w, w', {}, action, thread.certificate);
  }

  // ----- The log

  lemma CallsSnoc(log: seq<Dispatch>, call: Dispatch, a: Id)
    ensures ExecuteCalls(log + [call], a) == ExecuteCalls(log, a) + if call.ExecuteCall? && call.action.id == a then 1 else 0
    ensures RollbackCalls(log + [call], a) == RollbackCalls(log, a) + if call == RollbackCall(a) then 1 else 0
  {
    assert (log + [call])[..|log|] == log;
  }

  lemma LogExecuteSound(cfg: Config, w: World, action: Action, record: Id, certificate: Certificate)
    requires WorldInv(cfg, w) && CallSound(w.db, ExecuteCall(action, record, certificate))
    requires ExecuteCalls(w.log, action.id) <= cfg.retries && Recorded(w.db, action.id)
    ensures var w' := w.(log := w.log + [ExecuteCall(action, record, certificate)]);
            && WorldInv(cfg, w') && Guarantee(w, w', {action.id})
            && ExecuteCalls(w'.log, action.id) == ExecuteCalls(w.log, action.id) + 1
            && RollbackCalls(w'.log, action.id) == RollbackCalls(w.log, action.id)
  {
    var call := ExecuteCall(action, record, certificate);
    var w' := w.(log := w.log + [call]);
    forall a ensures && ExecuteCalls(w'.log, a) == ExecuteCalls(w.log, a) + (if a == action.id then 1 else 0)
                     && RollbackCalls(w'.log, a) == RollbackCalls(w.log, a) {
      CallsSnoc(w.log, call, a);
    }
    Unchanged(cfg, w, {action.id});
  }

  lemma LogRollbackSound(cfg: Config, w: World, a: Id)
    requires WorldInv(cfg, w) && RollbackCalls(w.log, a) == 0
    requires a in w.db.actions && w.db.actions[a].status == Failed
    ensures var w' := w.(log := w.log + [RollbackCall(a)]);
            && WorldInv(cfg, w') && Guarantee(w, w', {a}) && RollbackCalls(w'.log, a) == 1
  {
    var call := RollbackCall(a);
    var w' := w.(log := w.log + [call]);
    forall b ensures && ExecuteCalls(w'.log, b) == ExecuteCalls(w.log, b)
                     && RollbackCalls(w'.log, b) == RollbackCalls(w.log, b) + (if b == a then 1 else 0) {
      CallsSnoc(w.log, call, b);
    }
    Unchanged(cfg, w, {a});
  }

  lemma DispatchingGood(cfg: Config, w: World, thread: Thread, choice: Choice)
    requires thread.Dispatching? && WorldInv(cfg, w) && ThreadInv(cfg, w, thread)
    ensures Good(cfg, w, thread, StepDispatch(cfg, w, thread, choice))
  {
    hide WorldInv, Guarantee, ThreadInv;
    DispatchSound(cfg, w, thread);
  }

  /** The call is made by the holder of the record, who knows that afterwards. */
  lemma DispatchSound(cfg: Config, w: World, thread: Thread)
    requires thread.Dispatching? && WorldInv(cfg, w) && ThreadInv(cfg, w, thread)
    ensures var Dispatching(action, execution, certificate, attempt) := thread;
            var w' := w.(log := w.log + [ExecuteCall(action, execution.id, certificate)]);
            && WorldInv(cfg, w') && Guarantee(w, w', {action.id})
            && ThreadInv(cfg, w', Calling(action, execution, certificate, attempt))
  {
    hide WorldInv, Guarantee;
    HolderRecorded(w, thread.action, thread.execution, Executing, 0);
    LogExecuteSound(cfg, w, thread.action, thread.execution.id, thread.certificate);
  }

  lemma CallingGood(cfg: Config, w: World, thread: Thread, choice: Choice)
    requires thread.Calling? && WorldInv(cfg, w) && ThreadInv(cfg, w, thread)
    ensures Good(cfg, w, thread, StepDispatch(cfg, w, thread, choice))
  {
    hide WorldInv, Guarantee;
    Unchanged(cfg, w, {thread.action.id});
  }

  lemma HolderRecorded(w: World, action: Action, execution: Execution, status: ActionStatus, rollbacks: nat)
    requires Holds(w, action, execution, status, rollbacks)
    ensures Recorded(w.db, action.id)
  {
    assert w.db.executions[execution.id].action == action.id;
  }

  // ----- What follows a dispatch

  lemma SavingGood(cfg: Config, w: World, thread: Thread)
    requires thread.Saving? && WorldInv(cfg, w) && ThreadInv(cfg, w, thread)
    ensures Good(cfg, w, thread, StepSettle(cfg, w, thread))
  {
    hide WorldInv, Guarantee;
    SaveExecutionSound(cfg, w, thread.execution, {thread.action.id});
  }

  /** An action's record is the only one, so if it has ended none is started. */
  lemma OnlyRecord(cfg: Config, w: World, execution: Execution)
    requires WorldInv(cfg, w) && execution.id in w.db.executions && w.db.executions[execution.id] == execution
    requires execution.status != ExecStarted
    ensures forall r :: r in w.db.executions && w.db.executions[r].action == execution.action
                        ==> w.db.executions[r].status != ExecStarted
  {
    forall r | r in w.db.executions && w.db.executions[r].action == execution.action
      ensures w.db.executions[r].status != ExecStarted
    {
      assert SameAction(w.db, r, execution.id);
    }
  }

  lemma MarkSound(cfg: Config, w: World, action: Action, execution: Execution, from: ActionStatus, to: ActionStatus)
    requires WorldInv(cfg, w) && Holds(w, action, execution, from, 0)
    requires Claimed(from) && StatusEdge(from, to)
    requires from == Executing ==> w.db.executions[execution.id] == execution && execution.status != ExecStarted
    ensures var reply := UpdateCandidateActionStatus(w.db, action.id, to);
            && reply.Done?
            && var w' := w.(db := reply.db);
               WorldInv(cfg, w') && Guarantee(w, w', {action.id}) && Holds(w', action, execution, to, 0)
  {
    hide WorldInv, Guarantee;
    if from == Executing {
      OnlyRecord(cfg, w, execution);
    }
    SetStatusSound(cfg, w, action.id, to, {action.id});
  }

  lemma MarkingGood(cfg: Config, w: World, thread: Thread)
    requires thread.Marking? && WorldInv(cfg, w) && ThreadInv(cfg, w, thread)
    ensures Good(cfg, w, thread, StepSettle(cfg, w, thread))
  {
    hide WorldInv, Guarantee, Holds, UpdateCandidateActionStatus;
    MarkSound(cfg, w, thread.action, thread.execution, Executing, ActionStatusAfter(thread.execution.status));
  }

  lemma SettlingGood(cfg: Config, w: World, thread: Thread)
    requires thread.Settling? && WorldInv(cfg, w) && ThreadInv(cfg, w, thread)
    ensures Good(cfg, w, thread, StepSettle(cfg, w, thread))
  {
    hide WorldInv, Guarantee, Transition;
    var Settling(action, execution, from) := thread;
    if Transition(w.db, action.incident, from, IncidentStateAfter(execution.status)).Done? {
      TransitionSound(cfg, w, action.incident, from, IncidentStateAfter(execution.status), {action.id});
    } else {
      Unchanged(cfg, w, {action.id});
    }
  }

  lemma VerifyingGood(cfg: Config, w: World, thread: Thread, choice: Choice)
    requires thread.Verifying? && WorldInv(cfg, w) && ThreadInv(cfg, w, thread)
    ensures Good(cfg, w, thread, StepVerify(cfg, w, thread, choice))
  {
    hide WorldInv, Guarantee;
    Unchanged(cfg, w, {thread.action.id});
  }

  lemma JudgedGood(cfg: Config, w: World, thread: Thread, choice: Choice)
    requires thread.Judged? && WorldInv(cfg, w) && ThreadInv(cfg, w, thread)
    ensures Good(cfg, w, thread, StepVerify(cfg, w, thread, choice))
  {
    hide WorldInv, Guarantee;
    var w' := w.(db := w.db.(verdicts := w.db.verdicts[thread.execution.id := Verification(thread.execution.id, thread.verdict)]));
    SideTableSound(cfg, w, w', {thread.action.id});
  }

  lemma ConcludingGood(cfg: Config, w: World, thread: Thread, choice: Choice)
    requires thread.Concluding? && WorldInv(cfg, w) && ThreadInv(cfg, w, thread)
    ensures Good(cfg, w, thread, StepVerify(cfg, w, thread, choice))
  {
    hide WorldInv, Guarantee, Holds, UpdateCandidateActionStatus;
    if thread.verdict == Success {
      Unchanged(cfg, w, {thread.action.id});
    } else {
      MarkSound(cfg, w, thread.action, thread.execution, Succeeded, Failed);
    }
  }

  /** Moving the incident to FailedRemediation opens the way to a rollback. */
  lemma UnwindSound(cfg: Config, w: World, action: Action, execution: Execution, from: IncidentState)
    requires WorldInv(cfg, w) && Holds(w, action, execution, Failed, 0)
    requires Transition(w.db, action.incident, from, FailedRemediation).Done?
    ensures var w' := w.(db := Transition(w.db, action.incident, from, FailedRemediation).db);
            WorldInv(cfg, w') && Guarantee(w, w', {action.id}) && Compensates(w', action, 0)
  {
    hide WorldInv, Guarantee;
    TransitionSound(cfg, w, action.incident, from, FailedRemediation, {action.id});
    HolderRecorded(w, action, execution, Failed, 0);
    RecordedOnExecutions(w.db, Transition(w.db, action.incident, from, FailedRemediation).db, action.id);
  }

  lemma UnwindingGood(cfg: Config, w: World, thread: Thread, choice: Choice)
    requires thread.Unwinding? && WorldInv(cfg, w) && ThreadInv(cfg, w, thread)
    ensures Good(cfg, w, thread, StepVerify(cfg, w, thread, choice))
  {
    hide WorldInv, Guarantee, Holds, Compensates, Transition, HasRollbackPlan;
    var Unwinding(action, execution, verdict, from) := thread;
    if verdict != Inconclusive && Transition(w.db, action.incident, from, FailedRemediation).Done? {
      UnwindSound(cfg, w, action, execution, from);
    } else {
      Unchanged(cfg, w, {action.id});
    }
  }

  lemma SaveRollbackSound(cfg: Config, w: World, rollback: Rollback, action: Action, calls: nat)
    requires WorldInv(cfg, w) && Compensates(w, action, calls)
    ensures var w' := w.(db := w.db.(rollbacks := w.db.rollbacks[rollback.id := rollback]));
            WorldInv(cfg, w') && Guarantee(w, w', {action.id}) && Compensates(w', action, calls)
  {
    hide WorldInv, Guarantee;
    var w' := w.(db := w.db.(rollbacks := w.db.rollbacks[rollback.id := rollback]));
    SideTableSound(cfg, w, w', {action.id});
    RecordedOnExecutions(w.db, w'.db, action.id);
  }

  lemma CompensatingGood(cfg: Config, w: World, thread: Thread, choice: Choice)
    requires thread.Compensating? && WorldInv(cfg, w) && ThreadInv(cfg, w, thread)
    ensures Good(cfg, w, thread, StepRollback(cfg, w, thread, choice))
  {
    hide WorldInv, Guarantee, Compensates;
    var action := thread.action;
    Unchanged(cfg, w, {action.id});
    if choice.Fresh? && action.actionType in cfg.catalog {
      var rollback := Rollback(choice.id, action.id, cfg.catalog[action.actionType].rollbackKey, "system:auto-rollback", RollbackStarted);
      SaveRollbackSound(cfg, w, rollback, action, 0);
    }
  }

  lemma RollbackSavedGood(cfg: Config, w: World, thread: Thread, choice: Choice)
    requires thread.RollbackSaved? && WorldInv(cfg, w) && ThreadInv(cfg, w, thread)
    ensures Good(cfg, w, thread, StepRollback(cfg, w, thread, choice))
  {
    hide WorldInv, Guarantee;
    LogRollbackSound(cfg, w, thread.action.id);
  }

  lemma RollbackCallingGood(cfg: Config, w: World, thread: Thread, choice: Choice)
    requires thread.RollbackCalling? && WorldInv(cfg, w) && ThreadInv(cfg, w, thread)
    ensures Good(cfg, w, thread, StepRollback(cfg, w, thread, choice))
  {
    hide WorldInv, Guarantee, Compensates;
    Unchanged(cfg, w, {thread.action.id});
  }

  lemma RollbackDoneGood(cfg: Config, w: World, thread: Thread, choice: Choice)
    requires thread.RollbackDone? && WorldInv(cfg, w) && ThreadInv(cfg, w, thread)
    ensures Good(cfg, w, thread, StepRollback(cfg, w, thread, choice))
  {
    hide WorldInv, Guarantee, Compensates;
    Unchanged(cfg, w, {thread.action.id});
    SaveRollbackSound(cfg, w, thread.rollback, thread.action, 1);
  }

  lemma RollbackMarkSound(cfg: Config, w: World, action: Action)
    requires WorldInv(cfg, w) && Compensates(w, action, 1)
    ensures var reply := UpdateCandidateActionStatus(w.db, action.id, ActionRolledBack);
            reply.Done? && WorldInv(cfg, w.(db := reply.db)) && Guarantee(w, w.(db := reply.db), {action.id})
  {
    hide WorldInv, Guarantee;
    SetStatusSound(cfg, w, action.id, ActionRolledBack, {action.id});
  }

  lemma RollbackMarkingGood(cfg: Config, w: World, thread: Thread, choice: Choice)
    requires thread.RollbackMarking? && WorldInv(cfg, w) && ThreadInv(cfg, w, thread)
    ensures Good(cfg, w, thread, StepRollback(cfg, w, thread, choice))
  {
    hide WorldInv, Guarantee, Compensates, UpdateCandidateActionStatus;
    Unchanged(cfg, w, {thread.action.id});
    RollbackMarkSound(cfg, w, thread.action);
  }

  lemma StepBeforeClaimGood(cfg: Config, w: World, thread: Thread, choice: Choice)
    requires !PastClaim(thread) && WorldInv(cfg, w) && ThreadInv(cfg, w, thread)
    ensures Good(cfg, w, thread, ThreadStep(cfg, w, thread, choice))
  {
    hide WorldInv, ThreadInv, Good, StepApprove, StepReject, StepIncident, StepTriage, StepExecute, StepDispatch, StepSettle,
         StepVerify, StepRollback;
    match thread
    case ApproveRead(_, _) => ApproveReadGood(cfg, w, thread);
    case ApproveDecided(_, _) => ApproveDecidedGood(cfg, w, thread);
    case ApproveReady(_, _, _) => ApproveReadyGood(cfg, w, thread);
    case RejectRead(_, _) => RejectReadGood(cfg, w, thread);
    case RejectReady(_, _, _) => RejectReadyGood(cfg, w, thread);
    case Refreshing(_, _) => RefreshingGood(cfg, w, thread);
    case Moving(_, _, _) => MovingGood(cfg, w, thread);
    case TriageRead(_) => TriageReadGood(cfg, w, thread, choice);
    case TriageCollected(_) => TriageCollectedGood(cfg, w, thread, choice);
    case TriageProposed(_, _) => TriageProposedGood(cfg, w, thread, choice);
    case Evaluating(_, _, _) => EvaluatingGood(cfg, w, thread, choice);
    case ExecRead(_, _) => ExecReadGood(cfg, w, thread, choice);
    case ExecListed(_, _) => ExecReadGood(cfg, w, thread, choice);
    case ExecDecision(_, _, _) => ExecDecisionGood(cfg, w, thread, choice);
    case ExecCleared(_, _, _) => ExecClearedGood(cfg, w, thread, choice);
    case ExecArmed(_, _, _) => ExecClearedGood(cfg, w, thread, choice);
    case ExecReady(_, _, _) => ExecReadyGood(cfg, w, thread, choice);
  }

  lemma StepPastClaimGood(cfg: Config, w: World, thread: Thread, choice: Choice)
    requires PastClaim(thread) && WorldInv(cfg, w) && ThreadInv(cfg, w, thread)
    ensures Good(cfg, w, thread, ThreadStep(cfg, w, thread, choice))
  {
    hide WorldInv, ThreadInv, Good, StepApprove, StepReject, StepIncident, StepTriage, StepExecute, StepDispatch, StepSettle,
         StepVerify, StepRollback;
    match thread
    case Dispatching(_, _, _, _) => DispatchingGood(cfg, w, thread, choice);
    case Calling(_, _, _, _) => CallingGood(cfg, w, thread, choice);
    case Saving(_, _, _) => SavingGood(cfg, w, thread);
    case Marking(_, _, _) => MarkingGood(cfg, w, thread);
    case Settling(_, _, _) => SettlingGood(cfg, w, thread);
    case Verifying(_, _) => VerifyingGood(cfg, w, thread, choice);
    case Judged(_, _, _, _) => JudgedGood(cfg, w, thread, choice);
    case Concluding(_, _, _, _) => ConcludingGood(cfg, w, thread, choice);
    case Unwinding(_, _, _, _) => UnwindingGood(cfg, w, thread, choice);
    case Compensating(_) => CompensatingGood(cfg, w, thread, choice);
    case RollbackSaved(_, _) => RollbackSavedGood(cfg, w, thread, choice);
    case RollbackCalling(_, _) => RollbackCallingGood(cfg, w, thread, choice);
    case RollbackDone(_, _) => RollbackDoneGood(cfg, w, thread, choice);
    case RollbackMarking(_) => RollbackMarkingGood(cfg, w, thread, choice);
  }

  /** Every step of every call keeps the invariant. */
  lemma ThreadStepGood(cfg: Config, w: World, thread: Thread, choice: Choice)
    requires WorldInv(cfg, w) && ThreadInv(cfg, w, thread)
    ensures Good(cfg, w, thread, ThreadStep(cfg, w, thread, choice))
  {
    hide *;
    if PastClaim(thread) {
      StepPastClaimGood(cfg, w, thread, choice);
    } else {
      StepBeforeClaimGood(cfg, w, thread, choice);
    }
  }
}
