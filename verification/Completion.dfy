/** Calls that run without interference: a thread is run to its end alone, and the outcome of
    verification, rollback and recovery is computed in closed form. */
module Completion {
  import opened Domain
  import opened StateMachine
  import opened Tables
  import opened Protocol
  import opened ProtocolInvariant
  import opened ProtocolRuns
  import Digest
  import E = EvidenceItems
  import Policy

  /** The write of RollbackAction that the store fails, if any. */
  datatype StoreFault = NoFault | StartFault | EndFault | MarkFault

  /** What the world outside answers, per action or incident. */
  datatype Oracle = Oracle(
    generated: Id -> seq<Action>,
    executionId: Id -> Id,
    execute: (Id, nat) -> AdapterOutcome, // by attempt
    reconciled: Id -> Reconciliation,
    verdict: Id -> Verdict,
    rollbackId: Id -> Id,
    rollback: Id -> AdapterOutcome,
    rollbackStore: Id -> StoreFault)

  /** The verdict that is reported: the oracle's, unless the configuration rules it out. */
  function VerdictOf(cfg: Config, oracle: Oracle, action: Id): Verdict {
    if MayReport(cfg.required, oracle.verdict(action)) then oracle.verdict(action) else Inconclusive
  }

  function ChoiceOf(cfg: Config, oracle: Oracle, thread: Thread): Choice {
    match thread
    case TriageCollected(incident) => Generated(oracle.generated(incident.id))
    case ExecReady(action, _, _) => Fresh(oracle.executionId(action.id))
    case Calling(action, _, _, attempt) => Answer(oracle.execute(action.id, attempt))
    case Verifying(action, _) => Evaluated(VerdictOf(cfg, oracle, action.id))
    case Compensating(action) => if oracle.rollbackStore(action.id) == StartFault then StoreError else Fresh(oracle.rollbackId(action.id))
    case RollbackCalling(action, _) => Answer(oracle.rollback(action.id))
    case RollbackDone(action, _) => if oracle.rollbackStore(action.id) == EndFault then StoreError else NoChoice
    case RollbackMarking(action) => if oracle.rollbackStore(action.id) == MarkFault then StoreError else NoChoice
    case _ => NoChoice
  }

  /** Triage runs through three stages before it knows how many actions it has to evaluate. */
  function Stage(thread: Thread): nat {
    match thread
    case TriageRead(_) => 3
    case TriageCollected(_) => 2
    case TriageProposed(_, _) => 1
    case _ => 0
  }

  function RetriesLeft(cfg: Config, attempt: nat): nat {
    if attempt < cfg.retries then cfg.retries - attempt else 0
  }

  /** Steps left, at most, to the end. */
  function Remaining(cfg: Config, thread: Thread): nat {
    match thread
    case ApproveRead(_, _) => 3
    case ApproveDecided(_, _) => 2
    case RejectRead(_, _) => 4
    case RejectReady(_, _, _) => 3
    case Refreshing(_, _) => 2
    case Evaluating(_, todo, _) => |todo| + 3
    case ExecRead(_, _) => 22 + 3 * cfg.retries
    case ExecListed(_, _) => 21 + 3 * cfg.retries
    case ExecDecision(_, _, _) => 20 + 3 * cfg.retries
    case ExecCleared(_, _, _) => 19 + 3 * cfg.retries
    case ExecArmed(_, _, _) => 18 + 3 * cfg.retries
    case ExecReady(_, _, _) => 17 + 3 * cfg.retries
    case Dispatching(_, _, _, attempt) => 16 + 3 * RetriesLeft(cfg, attempt)
    case Calling(_, _, _, attempt) => 14 + 3 * RetriesLeft(cfg, attempt)
    case Saving(_, _, _) => 13
    case Marking(_, _, _) => 12
    case Settling(_, _, _) => 11
    case Verifying(_, _) => 10
    case Judged(_, _, _, _) => 9
    case Concluding(_, _, _, _) => 8
    case Unwinding(_, _, _, _) => 7
    case Compensating(_) => 6
    case RollbackSaved(_, _) => 5
    case RollbackCalling(_, _) => 4
    case RollbackDone(_, _) => 3
    case RollbackMarking(_) => 2
    case _ => 1
  }

  ghost predicate Descended(cfg: Config, thread: Thread, outcome: Outcome) {
    outcome.Running? ==> Stage(outcome.thread) < Stage(thread)
                         || (Stage(outcome.thread) == Stage(thread) && Remaining(cfg, outcome.thread) < Remaining(cfg, thread))
  }

  /** The program counters of ExecuteAction up to its claim. */
  predicate BeforeClaim(thread: Thread) {
    thread.ExecRead? || thread.ExecListed? || thread.ExecDecision? || thread.ExecCleared? || thread.ExecArmed? || thread.ExecReady?
  }

  lemma DescendsEarly(cfg: Config, w: World, thread: Thread, choice: Choice)
    requires !PastClaim(thread) && !thread.Moving? && !BeforeClaim(thread)
    ensures Descended(cfg, thread, ThreadStep(cfg, w, thread, choice))
  {
    hide Transition, UpdateCandidateActionStatus, DecideApproval, SaveCandidateActions, SavePolicyDecisions, CanTransition, FreshActions,
         Evaluable, RefreshTarget;
    match thread
    case ApproveRead(_, _) =>
    case ApproveDecided(_, _) =>
    case ApproveReady(_, _, _) =>
    case RejectRead(_, _) =>
    case RejectReady(_, _, _) =>
    case Refreshing(_, _) =>
    case TriageRead(_) =>
    case TriageCollected(_) =>
    case TriageProposed(_, _) =>
    case Evaluating(_, _, _) =>
  }

  lemma DescendsToClaim(cfg: Config, w: World, thread: Thread, choice: Choice)
    requires BeforeClaim(thread)
    ensures Descended(cfg, thread, ThreadStep(cfg, w, thread, choice))
  {
    hide ClaimExecution, MayExecute, ValidApproval, InScope, Duplicate, Attempts, Executable;
  }

  lemma DescendsLate(cfg: Config, w: World, thread: Thread, choice: Choice)
    requires thread.Dispatching? || thread.Calling? || thread.Saving? || thread.Marking? || thread.Settling?
    ensures Descended(cfg, thread, ThreadStep(cfg, w, thread, choice))
  {
    hide Transition, UpdateCandidateActionStatus, SaveExecutionRecord, ActionStatusAfter, IncidentStateAfter;
  }

  lemma DescendsLast(cfg: Config, w: World, thread: Thread, choice: Choice)
    requires thread.Moving? || thread.Verifying? || thread.Judged? || thread.Concluding? || thread.Unwinding?
    ensures Descended(cfg, thread, ThreadStep(cfg, w, thread, choice))
  {
    hide Transition, UpdateCandidateActionStatus, SaveVerificationResult, HasRollbackPlan;
  }

  lemma DescendsRollback(cfg: Config, w: World, thread: Thread, choice: Choice)
    requires Compensation(thread)
    ensures Descended(cfg, thread, ThreadStep(cfg, w, thread, choice))
  {
    hide UpdateCandidateActionStatus, SaveRollbackRecord;
    match thread
    case Compensating(_) =>
    case RollbackSaved(_, _) =>
    case RollbackCalling(_, _) =>
    case RollbackDone(_, _) =>
    case RollbackMarking(_) =>
  }

  lemma Descends(cfg: Config, w: World, thread: Thread, choice: Choice)
    ensures Descended(cfg, thread, ThreadStep(cfg, w, thread, choice))
  {
    hide Descended, ThreadStep;
    if thread.Dispatching? || thread.Calling? || thread.Saving? || thread.Marking? || thread.Settling? {
      DescendsLate(cfg, w, thread, choice);
    } else if Compensation(thread) {
      DescendsRollback(cfg, w, thread, choice);
    } else if AfterDispatch(thread) {
      DescendsLast(cfg, w, thread, choice);
    } else if BeforeClaim(thread) {
      DescendsToClaim(cfg, w, thread, choice);
    } else {
      DescendsEarly(cfg, w, thread, choice);
    }
  }

  /** The world a call leaves behind, and whether it returned without an error. */
  datatype Ending = Ending(world: World, ok: bool)

  /** Run a call to its end; no other thread steps in between. */
  ghost function Finish(cfg: Config, w: World, thread: Thread, oracle: Oracle): Ending
    decreases Stage(thread), Remaining(cfg, thread)
  {
    match ThreadStep(cfg, w, thread, ChoiceOf(cfg, oracle, thread))
    case Running(w', thread') =>
      Descends(cfg, w, thread, ChoiceOf(cfg, oracle, thread));
      Finish(cfg, w', thread', oracle)
    case Returned(w') => Ending(w', true)
    case Aborted(w') => Ending(w', false)
    case Blocked => Ending(w, false)
  }

  lemma FinishStep(cfg: Config, w: World, thread: Thread, w': World, thread': Thread, oracle: Oracle)
    requires ThreadStep(cfg, w, thread, ChoiceOf(cfg, oracle, thread)) == Running(w', thread')
    ensures Finish(cfg, w, thread, oracle) == Finish(cfg, w', thread', oracle)
  {
    hide ThreadStep;
  }

  // ----- A call that runs alone is a run of the system

  /** The state is reached in n steps. */
  ghost predicate Leads(cfg: Config, s: State, s': State, n: nat)
    decreases n
  {
    if n == 0 then s' == s else exists m :: Next(cfg, s, m) && Leads(cfg, m, s', n - 1)
  }

  lemma LeadsOn(cfg: Config, s: State, m: State, s': State, n: nat)
    requires Next(cfg, s, m) && Leads(cfg, m, s', n)
    ensures Leads(cfg, s, s', n + 1)
  {
  }

  lemma {:induction false} LeadsFurther(cfg: Config, s: State, m: State, s': State, k: nat, n: nat)
    requires Leads(cfg, s, m, k) && Leads(cfg, m, s', n)
    ensures Leads(cfg, s, s', k + n)
    decreases k
  {
    hide Next;
    if k > 0 {
      var next :| Next(cfg, s, next) && Leads(cfg, next, m, k - 1);
      LeadsFurther(cfg, next, m, s', k - 1, n);
      LeadsOn(cfg, s, next, s', k - 1 + n);
    }
  }

  lemma AdvanceNext(cfg: Config, s: State, tid: int, choice: Choice)
    requires tid in s.threads
    ensures var outcome := ThreadStep(cfg, s.world, s.threads[tid], choice);
            Next(cfg, s, match outcome
                         case Running(w', thread') => s.(world := w', threads := s.threads[tid := thread'])
                         case Returned(w') => Ended(s, w', tid, false)
                         case Aborted(w') => Ended(s, w', tid, true)
                         case Blocked => Ended(s, s.world, tid, true))
  {
    hide ThreadStep, Startable, StartedExecutions;
    var outcome := ThreadStep(cfg, s.world, s.threads[tid], choice);
    match outcome
    case Running(w', thread') =>
      assert StepTo(cfg, s, s.(world := w', threads := s.threads[tid := thread']), Advance(tid, choice));
    case Returned(w') =>
      assert StepTo(cfg, s, Ended(s, w', tid, false), Advance(tid, choice));
    case Aborted(w') =>
      assert StepTo(cfg, s, Ended(s, w', tid, true), Advance(tid, choice));
    case Blocked =>
      assert StepTo(cfg, s, Ended(s, s.world, tid, true), Abort(tid));
  }

  /** Whatever Finish computes for a call is reached by steps of that call alone. */
  lemma {:induction false} FinishIsARun(cfg: Config, s: State, tid: int, oracle: Oracle) returns (n: nat)
    requires tid in s.threads
    ensures var ending := Finish(cfg, s.world, s.threads[tid], oracle);
            Leads(cfg, s, Ended(s, ending.world, tid, !ending.ok), n)
    decreases Stage(s.threads[tid]), Remaining(cfg, s.threads[tid])
  {
    hide Next, ThreadStep;
    var thread := s.threads[tid];
    var choice := ChoiceOf(cfg, oracle, thread);
    var ending := Finish(cfg, s.world, thread, oracle);
    AdvanceNext(cfg, s, tid, choice);
    match ThreadStep(cfg, s.world, thread, choice)
    case Running(w', thread') =>
      Descends(cfg, s.world, thread, choice);
      var m := s.(world := w', threads := s.threads[tid := thread']);
      var k := FinishIsARun(cfg, m, tid, oracle);
      assert m.threads - {tid} == s.threads - {tid};
      LeadsOn(cfg, s, m, Ended(s, ending.world, tid, !ending.ok), k);
      n := k + 1;
    case Returned(w') => n := OneStep(cfg, s, Ended(s, w', tid, false));
    case Aborted(w') => n := OneStep(cfg, s, Ended(s, w', tid, true));
    case Blocked => n := OneStep(cfg, s, Ended(s, s.world, tid, true));
  }

  lemma OneStep(cfg: Config, s: State, s': State) returns (n: nat)
    requires Next(cfg, s, s')
    ensures Leads(cfg, s, s', n)
  {
    assert Leads(cfg, s', s', 0);
    LeadsOn(cfg, s, s', s', 0);
    n := 1;
  }

  // ----- One step of a call that runs alone

  /** The rollback operation exists and may be dispatched. */
  predicate CanRollBack(cfg: Config, action: Action) {
    && HasRollbackPlan(cfg, action)
    && cfg.catalog[action.actionType].rollbackKey in cfg.catalog
    && cfg.catalog[cfg.catalog[action.actionType].rollbackKey].executable
  }

  /** The rollback that RollbackAction starts. */
  function StartedRollback(action: Action, key: string, oracle: Oracle): Rollback {
    Rollback(oracle.rollbackId(action.id), action.id, key, "system:auto-rollback", RollbackStarted)
  }

  /** A write the store fails to make. */
  function Faulty(write: Write, fails: bool): Write {
    if fails then Refused else write
  }

  lemma AtCompensating(cfg: Config, w: World, action: Action, oracle: Oracle)
    requires oracle.rollbackId(action.id) !in w.db.rollbacks
    ensures var escalated := Finish(cfg, w, Moving(action.incident, FailedRemediation, Escalated), oracle);
            && (HasRollbackPlan(cfg, action) && !CanRollBack(cfg, action) ==> Finish(cfg, w, Compensating(action), oracle) == escalated)
            && (CanRollBack(cfg, action) ==>
                  var record := StartedRollback(action, cfg.catalog[action.actionType].rollbackKey, oracle);
                  var write := Faulty(SaveRollbackRecord(w.db, record), oracle.rollbackStore(action.id) == StartFault);
                  Finish(cfg, w, Compensating(action), oracle)
                  == if write.Done? then Finish(cfg, w.(db := write.db), RollbackSaved(action, record), oracle) else escalated)
  {
    hide Finish, SaveRollbackRecord;
    if CanRollBack(cfg, action) {
      var record := StartedRollback(action, cfg.catalog[action.actionType].rollbackKey, oracle);
      var write := Faulty(SaveRollbackRecord(w.db, record), oracle.rollbackStore(action.id) == StartFault);
      FinishStep(cfg, w, Compensating(action), if write.Done? then w.(db := write.db) else w,
                 if write.Done? then RollbackSaved(action, record) else Moving(action.incident, FailedRemediation, Escalated), oracle);
    } else if HasRollbackPlan(cfg, action) {
      FinishStep(cfg, w, Compensating(action), w, Moving(action.incident, FailedRemediation, Escalated), oracle);
    }
  }

  lemma AtRollbackDone(cfg: Config, w: World, action: Action, record: Rollback, oracle: Oracle)
    ensures var write := Faulty(SaveRollbackRecord(w.db, record), oracle.rollbackStore(action.id) == EndFault);
            var w' := if write.Done? then w.(db := write.db) else w;
            Finish(cfg, w, RollbackDone(action, record), oracle)
            == if write.Done? && record.status == RollbackSucceeded then Finish(cfg, w', RollbackMarking(action), oracle)
               else Finish(cfg, w', Moving(action.incident, FailedRemediation, Escalated), oracle)
  {
    hide Finish, SaveRollbackRecord;
    var write := Faulty(SaveRollbackRecord(w.db, record), oracle.rollbackStore(action.id) == EndFault);
    var w' := if write.Done? then w.(db := write.db) else w;
    FinishStep(cfg, w, RollbackDone(action, record), w',
               if write.Done? && record.status == RollbackSucceeded then RollbackMarking(action)
               else Moving(action.incident, FailedRemediation, Escalated), oracle);
  }

  lemma AtRollbackMarking(cfg: Config, w: World, action: Action, oracle: Oracle)
    ensures var write := Faulty(UpdateCandidateActionStatus(w.db, action.id, ActionRolledBack), oracle.rollbackStore(action.id) == MarkFault);
            Finish(cfg, w, RollbackMarking(action), oracle)
            == if write.Done? then Finish(cfg, w.(db := write.db), Moving(action.incident, FailedRemediation, RolledBack), oracle)
               else Finish(cfg, w, Moving(action.incident, FailedRemediation, Escalated), oracle)
  {
    hide Finish, UpdateCandidateActionStatus;
    var write := Faulty(UpdateCandidateActionStatus(w.db, action.id, ActionRolledBack), oracle.rollbackStore(action.id) == MarkFault);
    FinishStep(cfg, w, RollbackMarking(action), if write.Done? then w.(db := write.db) else w,
               Moving(action.incident, FailedRemediation, if write.Done? then RolledBack else Escalated), oracle);
  }

  lemma AtApproveRead(cfg: Config, w: World, action: Action, approver: string, oracle: Oracle)
    ensures Finish(cfg, w, ApproveRead(action, approver), oracle)
            == if action.id !in w.db.decisions || action.incident !in w.db.incidents then Ending(w, false)
               else
                 var record := ApprovalRecord(action, approver, w.db.decisions[action.id].rule, w.now);
                 var from := w.db.incidents[action.incident].state;
                 var write := DecideApproval(w.db, action.incident, record, Awaiting, ActionApproved, Some(from), Some(Approved));
                 if (from == Approved || CanTransition(from, Approved)) && write.Done? then Ending(w.(db := write.db), true) else Ending(w, false)
  {
    hide Finish, DecideApproval, CanTransition, ApprovalRecord;
    var thread := ApproveRead(action, approver);
    if action.id !in w.db.decisions {
      AbortEnds(cfg, w, thread, oracle);
    } else {
      var record := ApprovalRecord(action, approver, w.db.decisions[action.id].rule, w.now);
      var decided := ApproveDecided(action, record);
      FinishStep(cfg, w, thread, w, decided, oracle);
      if action.incident !in w.db.incidents {
        AbortEnds(cfg, w, decided, oracle);
      } else {
        AtApproveDecided(cfg, w, action, record, oracle);
      }
    }
  }

  lemma AtApproveDecided(cfg: Config, w: World, action: Action, record: Approval, oracle: Oracle)
    requires action.incident in w.db.incidents
    ensures var from := w.db.incidents[action.incident].state;
            var write := DecideApproval(w.db, action.incident, record, Awaiting, ActionApproved, Some(from), Some(Approved));
            Finish(cfg, w, ApproveDecided(action, record), oracle)
            == if (from == Approved || CanTransition(from, Approved)) && write.Done? then Ending(w.(db := write.db), true) else Ending(w, false)
  {
    hide DecideApproval, CanTransition;
  }

  lemma AtRejectRead(cfg: Config, w: World, action: Action, approver: string, oracle: Oracle)
    ensures Finish(cfg, w, RejectRead(action, approver), oracle)
            == if action.incident !in w.db.incidents then Ending(w, false)
               else
                 var write := DecideApproval(w.db, action.incident, RejectionRecord(action, approver, w.now), Awaiting, Denied, None, None);
                 if write.Done? then
                   Finish(cfg, w.(db := write.db), Refreshing(action.incident, w.db.incidents[action.incident].state), oracle)
                 else Ending(w, false)
  {
    hide Finish, DecideApproval, RejectionRecord;
    var thread := RejectRead(action, approver);
    if action.incident !in w.db.incidents {
      AbortEnds(cfg, w, thread, oracle);
    } else {
      var record, from := RejectionRecord(action, approver, w.now), w.db.incidents[action.incident].state;
      var ready := RejectReady(action, record, from);
      FinishStep(cfg, w, thread, w, ready, oracle);
      var write := DecideApproval(w.db, action.incident, record, Awaiting, Denied, None, None);
      if write.Done? {
        FinishStep(cfg, w, ready, w.(db := write.db), Refreshing(action.incident, from), oracle);
      } else {
        AbortEnds(cfg, w, ready, oracle);
      }
    }
  }

  lemma AtRefreshing(cfg: Config, w: World, incident: Id, from: IncidentState, oracle: Oracle)
    ensures Finish(cfg, w, Refreshing(incident, from), oracle)
            == Finish(cfg, w, Moving(incident, from, RefreshTarget(w.db, incident)), oracle)
  {
    hide Finish, RefreshTarget;
    FinishStep(cfg, w, Refreshing(incident, from), w, Moving(incident, from, RefreshTarget(w.db, incident)), oracle);
  }

  lemma AtEvaluating(cfg: Config, w: World, incident: Incident, todo: seq<Action>, decided: seq<Decision>, oracle: Oracle)
    ensures Finish(cfg, w, Evaluating(incident, todo, decided), oracle)
            == if todo == [] then Finish(cfg, w.(db := SavePolicyDecisions(w.db, decided)), Refreshing(incident.id, incident.state), oracle)
               else
                 var decision := Policy.Evaluate(cfg.catalog, cfg.topology, todo[0], incident.environment, w.killed);
                 var write := UpdateCandidateActionStatus(w.db, todo[0].id, Policy.StatusFromDecision(decision));
                 if write.Done? then Finish(cfg, w.(db := write.db), Evaluating(incident, todo[1..], decided + [decision]), oracle)
                 else Ending(w, false)
  {
    hide Finish, SavePolicyDecisions, UpdateCandidateActionStatus, Policy.Evaluate, Policy.StatusFromDecision;
    var thread := Evaluating(incident, todo, decided);
    if todo == [] {
      FinishStep(cfg, w, thread, w.(db := SavePolicyDecisions(w.db, decided)), Refreshing(incident.id, incident.state), oracle);
    } else {
      var decision := Policy.Evaluate(cfg.catalog, cfg.topology, todo[0], incident.environment, w.killed);
      var write := UpdateCandidateActionStatus(w.db, todo[0].id, Policy.StatusFromDecision(decision));
      if write.Done? {
        FinishStep(cfg, w, thread, w.(db := write.db), Evaluating(incident, todo[1..], decided + [decision]), oracle);
      } else {
        AbortEnds(cfg, w, thread, oracle);
      }
    }
  }

  /** The checks ExecuteAction makes on the history of the action. */
  predicate HistoryAllows(cfg: Config, w: World, action: Action)
    requires MayExecute(cfg, action)
  {
    var definition := cfg.catalog[action.actionType];
    && !Duplicate(w.db, action.id, CooldownOf(cfg, definition), w.now)
    && !(definition.maxAttempts > 0 && Attempts(w.db, action.id) >= definition.maxAttempts)
  }

  /** ... and on its status. */
  predicate StatusAllows(cfg: Config, action: Action)
    requires MayExecute(cfg, action)
  {
    Executable(action.status) && !(cfg.catalog[action.actionType].risk == RISK_MEDIUM && action.status != ActionApproved)
  }

  /** What validateApproval returns. */
  function CertificateFor(w: World, action: Action): Option<Certificate> {
    if action.id !in w.db.decisions then None
    else
      var rule := w.db.decisions[action.id].rule;
      match ValidApproval(ApprovalsOf(w.db, action.id), Digest.ActionApprovalDigest(action, rule), rule, w.now)
      case Some(approval) => Some(Certificate(approval, rule, w.now))
      case None => None
  }

  lemma AtExecRead(cfg: Config, w: World, action: Action, initiator: string, oracle: Oracle)
    requires MayExecute(cfg, action)
    ensures Finish(cfg, w, ExecRead(action, initiator), oracle)
            == if HistoryAllows(cfg, w, action) then Finish(cfg, w, ExecListed(action, initiator), oracle) else Ending(w, false)
  {
    hide Duplicate, Attempts, CooldownOf, MayExecute;
  }

  lemma AtExecListed(cfg: Config, w: World, action: Action, initiator: string, oracle: Oracle)
    requires MayExecute(cfg, action)
    ensures var certificate := if action.status == Allowed then Some(NoCertificate) else CertificateFor(w, action);
            Finish(cfg, w, ExecListed(action, initiator), oracle)
            == if StatusAllows(cfg, action) && certificate.Some? then Finish(cfg, w, ExecCleared(action, initiator, certificate.value), oracle)
               else Ending(w, false)
  {
    hide MayExecute, ValidApproval, Finish, Digest.ActionApprovalDigest;
    var certificate := if action.status == Allowed then Some(NoCertificate) else CertificateFor(w, action);
    var thread := ExecListed(action, initiator);
    if !StatusAllows(cfg, action) || (action.status != Allowed && action.id !in w.db.decisions) {
      AbortEnds(cfg, w, thread, oracle);
    } else if action.status == Allowed {
      FinishStep(cfg, w, thread, w, ExecCleared(action, initiator, NoCertificate), oracle);
    } else {
      var decided := ExecDecision(action, initiator, w.db.decisions[action.id]);
      FinishStep(cfg, w, thread, w, decided, oracle);
      if certificate.Some? {
        FinishStep(cfg, w, decided, w, ExecCleared(action, initiator, certificate.value), oracle);
      } else {
        AbortEnds(cfg, w, decided, oracle);
      }
    }
  }

  lemma AtExecCleared(cfg: Config, w: World, action: Action, initiator: string, certificate: Certificate, oracle: Oracle)
    requires MayExecute(cfg, action)
    ensures Finish(cfg, w, ExecCleared(action, initiator, certificate), oracle)
            == if !w.killed && action.incident in w.db.incidents
                  && InScope(action, w.db.incidents[action.incident], cfg.catalog[action.actionType])
                  && E.Current(EvidenceOf(cfg, action, w.now), w.now) then
                 Finish(cfg, w, ExecReady(action, initiator, certificate), oracle)
               else Ending(w, false)
  {
    hide InScope, Finish, E.Current;
    var thread, armed := ExecCleared(action, initiator, certificate), ExecArmed(action, initiator, certificate);
    if w.killed {
      AbortEnds(cfg, w, thread, oracle);
    } else {
      FinishStep(cfg, w, thread, w, armed, oracle);
      if action.incident in w.db.incidents && InScope(action, w.db.incidents[action.incident], cfg.catalog[action.actionType])
         && E.Current(EvidenceOf(cfg, action, w.now), w.now) {
        FinishStep(cfg, w, armed, w, ExecReady(action, initiator, certificate), oracle);
      } else {
        AbortEnds(cfg, w, armed, oracle);
      }
    }
  }

  function ClaimedRecord(action: Action, initiator: string, oracle: Oracle, now: int): Execution {
    Execution(oracle.executionId(action.id), action.id, ExecuteKey(action.id), initiator, ExecStarted, now, now)
  }

  lemma AtExecReady(cfg: Config, w: World, action: Action, initiator: string, certificate: Certificate, oracle: Oracle)
    requires MayExecute(cfg, action) && oracle.executionId(action.id) !in w.db.executions
    ensures var record := ClaimedRecord(action, initiator, oracle, w.now);
            var write := ClaimExecution(w.db, action.incident, action.id, record);
            Finish(cfg, w, ExecReady(action, initiator, certificate), oracle)
            == if write.Done? then Finish(cfg, w.(db := write.db), Dispatching(action, record, certificate, 0), oracle) else Ending(w, false)
  {
    hide MayExecute, ClaimExecution, Finish;
    var record := ClaimedRecord(action, initiator, oracle, w.now);
    var write := ClaimExecution(w.db, action.incident, action.id, record);
    if write.Done? {
      FinishStep(cfg, w, ExecReady(action, initiator, certificate), w.(db := write.db), Dispatching(action, record, certificate, 0), oracle);
    } else {
      AbortEnds(cfg, w, ExecReady(action, initiator, certificate), oracle);
    }
  }

  /** The execution as the answer of the adapter ends it. */
  function Answered(execution: Execution, answer: AdapterOutcome, now: int): Execution {
    execution.(finishedAt := now,
               status := if answer == AdapterOk then ExecSucceeded else if answer == AdapterTimeout then ExecTimedOut else ExecFailed)
  }

  lemma AtDispatching(cfg: Config, w: World, action: Action, execution: Execution, certificate: Certificate, attempt: nat, oracle: Oracle)
    ensures var answer := oracle.execute(action.id, attempt);
            var w' := w.(log := w.log + [ExecuteCall(action, execution.id, certificate)]);
            Finish(cfg, w, Dispatching(action, execution, certificate, attempt), oracle)
            == if answer == AdapterRetryable && attempt < cfg.retries then
                 Finish(cfg, w', Dispatching(action, execution, certificate, attempt + 1), oracle)
               else Finish(cfg, w', Saving(action, Answered(execution, answer, w.now), ExecutingAction), oracle)
  {
    hide Finish;
    var w' := w.(log := w.log + [ExecuteCall(action, execution.id, certificate)]);
    var calling := Calling(action, execution, certificate, attempt);
    var answer := oracle.execute(action.id, attempt);
    FinishStep(cfg, w, Dispatching(action, execution, certificate, attempt), w', calling, oracle);
    FinishStep(cfg, w', calling, w',
               if answer == AdapterRetryable && attempt < cfg.retries then Dispatching(action, execution, certificate, attempt + 1)
               else Saving(action, Answered(execution, answer, w.now), ExecutingAction), oracle);
  }

  lemma AbortEnds(cfg: Config, w: World, thread: Thread, oracle: Oracle)
    requires ThreadStep(cfg, w, thread, ChoiceOf(cfg, oracle, thread)) == Aborted(w)
    ensures Finish(cfg, w, thread, oracle) == Ending(w, false)
  {
    hide ThreadStep;
  }

  lemma AtSaving(cfg: Config, w: World, action: Action, execution: Execution, from: IncidentState, oracle: Oracle)
    ensures var write := SaveExecutionRecord(w.db, execution);
            Finish(cfg, w, Saving(action, execution, from), oracle)
            == if write.Done? then Finish(cfg, w.(db := write.db), Marking(action, execution, from), oracle) else Ending(w, false)
  {
  }

  lemma AtMarking(cfg: Config, w: World, action: Action, execution: Execution, from: IncidentState, oracle: Oracle)
    ensures var write := UpdateCandidateActionStatus(w.db, action.id, ActionStatusAfter(execution.status));
            Finish(cfg, w, Marking(action, execution, from), oracle)
            == if write.Done? then Finish(cfg, w.(db := write.db), Settling(action, execution, from), oracle) else Ending(w, false)
  {
  }

  lemma AtSettling(cfg: Config, w: World, action: Action, execution: Execution, from: IncidentState, oracle: Oracle)
    ensures var write := Transition(w.db, action.incident, from, IncidentStateAfter(execution.status));
            Finish(cfg, w, Settling(action, execution, from), oracle)
            == if !write.Done? then Ending(w, false)
               else if execution.status == ExecSucceeded && cfg.verifies then
                 Finish(cfg, w.(db := write.db), Verifying(action, execution), oracle)
               else Ending(w.(db := write.db), true)
  {
    hide Transition, IncidentStateAfter;
  }

  lemma AtMoving(cfg: Config, w: World, incident: Id, from: IncidentState, to: IncidentState, oracle: Oracle)
    ensures var write := Transition(w.db, incident, from, to);
            Finish(cfg, w, Moving(incident, from, to), oracle)
            == if write.Done? then Ending(w.(db := write.db), true) else Ending(w, false)
  {
  }

  lemma AtVerifying(cfg: Config, w: World, action: Action, execution: Execution, oracle: Oracle)
    ensures Finish(cfg, w, Verifying(action, execution), oracle)
            == if action.incident !in w.db.incidents then Ending(w, false)
               else Finish(cfg, w, Judged(action, execution, VerdictOf(cfg, oracle, action.id), w.db.incidents[action.incident].state), oracle)
  {
  }

  lemma AtJudged(cfg: Config, w: World, action: Action, execution: Execution, verdict: Verdict, from: IncidentState, oracle: Oracle)
    ensures var write := SaveVerificationResult(w.db, execution.id, verdict);
            Finish(cfg, w, Judged(action, execution, verdict, from), oracle)
            == if write.Done? then Finish(cfg, w.(db := write.db), Concluding(action, execution, verdict, from), oracle)
               else Ending(w, false)
  {
  }

  lemma AtConcluding(cfg: Config, w: World, action: Action, execution: Execution, verdict: Verdict, from: IncidentState, oracle: Oracle)
    ensures var write := UpdateCandidateActionStatus(w.db, action.id, Failed);
            Finish(cfg, w, Concluding(action, execution, verdict, from), oracle)
            == if verdict == Success then Finish(cfg, w, Moving(action.incident, from, Resolved), oracle)
               else if write.Done? then Finish(cfg, w.(db := write.db), Unwinding(action, execution, verdict, from), oracle)
               else Ending(w, false)
  {
  }

  lemma AtUnwinding(cfg: Config, w: World, action: Action, execution: Execution, verdict: Verdict, from: IncidentState, oracle: Oracle)
    ensures var write := Transition(w.db, action.incident, from, FailedRemediation);
            Finish(cfg, w, Unwinding(action, execution, verdict, from), oracle)
            == if verdict == Inconclusive then Finish(cfg, w, Moving(action.incident, from, Escalated), oracle)
               else if write.Done? && HasRollbackPlan(cfg, action) then Finish(cfg, w.(db := write.db), Compensating(action), oracle)
               else if write.Done? then Finish(cfg, w.(db := write.db), Moving(action.incident, FailedRemediation, Escalated), oracle)
               else Ending(w, false)
  {
  }

  // ----- Rollback and verification in closed form

  /** The rollback gets as far as its dispatch. */
  predicate Dispatches(cfg: Config, action: Action, oracle: Oracle) {
    CanRollBack(cfg, action) && oracle.rollbackStore(action.id) != StartFault
  }

  /** ... and all the way: the adapter undoes the action and every write is made. */
  predicate Undone(cfg: Config, action: Action, oracle: Oracle) {
    Dispatches(cfg, action, oracle) && oracle.rollback(action.id) == AdapterOk && oracle.rollbackStore(action.id) == NoFault
  }

  /** The stored rollback: still started if its final save failed. */
  function RollbackOf(cfg: Config, action: Action, oracle: Oracle): Rollback
    requires CanRollBack(cfg, action)
  {
    Rollback(oracle.rollbackId(action.id), action.id, cfg.catalog[action.actionType].rollbackKey, "system:auto-rollback",
             if oracle.rollbackStore(action.id) == EndFault then RollbackStarted
             else if oracle.rollback(action.id) == AdapterOk then RollbackSucceeded else RollbackFailed)
  }

  /** The three ways a verification can end. */
  datatype Result = ResolvedAction | RolledBackAction | EscalatedAction

  function ResultOf(cfg: Config, action: Action, oracle: Oracle): Result {
    match VerdictOf(cfg, oracle, action.id)
    case Success => ResolvedAction
    case Inconclusive => EscalatedAction
    case Failure =>
      if Undone(cfg, action, oracle) then RolledBackAction else EscalatedAction
  }

  function ResultStatus(result: Result): ActionStatus {
    match result
    case ResolvedAction => Succeeded
    case RolledBackAction => ActionRolledBack
    case EscalatedAction => Failed
  }

  function ResultState(result: Result): IncidentState {
    match result
    case ResolvedAction => Resolved
    case RolledBackAction => RolledBack
    case EscalatedAction => Escalated
  }

  /** Was the rollback dispatched? */
  predicate RollsBack(cfg: Config, action: Action, oracle: Oracle) {
    VerdictOf(cfg, oracle, action.id) == Failure && Dispatches(cfg, action, oracle)
  }

  function SetRollback(db: Database, rollback: Rollback): Database {
    db.(rollbacks := db.rollbacks[rollback.id := rollback])
  }

  function Judgement(db: Database, execution: Id, verdict: Verdict): Database {
    db.(verdicts := db.verdicts[execution := Verification(execution, verdict)])
  }

  /** The tables after a verification. */
  function VerifiedDb(cfg: Config, db: Database, action: Action, execution: Id, oracle: Oracle): Database
    requires action.id in db.actions && action.incident in db.incidents
  {
    var result := ResultOf(cfg, action, oracle);
    var judged := Judgement(db, execution, VerdictOf(cfg, oracle, action.id));
    var settled := SetState(SetStatus(judged, action.id, ResultStatus(result)), action.incident, ResultState(result));
    if RollsBack(cfg, action, oracle) then SetRollback(settled, RollbackOf(cfg, action, oracle)) else settled
  }

  function VerifiedLog(cfg: Config, log: seq<Dispatch>, action: Action, oracle: Oracle): seq<Dispatch> {
    if RollsBack(cfg, action, oracle) then log + [RollbackCall(action.id)] else log
  }

  lemma MoveEnds(cfg: Config, w: World, incident: Id, from: IncidentState, to: IncidentState, oracle: Oracle)
    requires incident in w.db.incidents && w.db.incidents[incident].state == from && CanTransition(from, to)
    ensures Finish(cfg, w, Moving(incident, from, to), oracle) == Ending(w.(db := SetState(w.db, incident, to)), true)
  {
  }

  lemma SetStateTwice(db: Database, incident: Id, first: IncidentState, second: IncidentState)
    requires incident in db.incidents
    ensures SetState(SetState(db, incident, first), incident, second) == SetState(db, incident, second)
  {
    var row := db.incidents[incident];
    assert db.incidents[incident := row.(state := first)][incident := row.(state := second)]
        == db.incidents[incident := row.(state := second)];
  }

  lemma SetStatusTwice(db: Database, action: Id, first: ActionStatus, second: ActionStatus)
    requires action in db.actions
    ensures SetStatus(SetStatus(db, action, first), action, second) == SetStatus(db, action, second)
  {
    var row := db.actions[action];
    assert db.actions[action := row.(status := first)][action := row.(status := second)]
        == db.actions[action := row.(status := second)];
  }

  lemma SetRollbackTwice(db: Database, first: Rollback, second: Rollback)
    requires first.id == second.id
    ensures SetRollback(SetRollback(db, first), second) == SetRollback(db, second)
  {
    assert db.rollbacks[first.id := first][second.id := second] == db.rollbacks[second.id := second];
  }

  /** RollbackAction and what VerifyExecution does after it. */
  lemma RollbackEnds(cfg: Config, w: World, action: Action, oracle: Oracle)
    requires action.id in w.db.actions && action.incident in w.db.incidents
    requires w.db.incidents[action.incident].state == FailedRemediation && HasRollbackPlan(cfg, action)
    requires oracle.rollbackId(action.id) !in w.db.rollbacks
    ensures var ending := Finish(cfg, w, Compensating(action), oracle);
            && ending.ok
            && ending.world == if !Dispatches(cfg, action, oracle) then w.(db := SetState(w.db, action.incident, Escalated))
                               else
                                 var recorded := SetRollback(w.db, RollbackOf(cfg, action, oracle));
                                 w.(log := w.log + [RollbackCall(action.id)],
                                    db := if Undone(cfg, action, oracle) then SetState(SetStatus(recorded, action.id, ActionRolledBack), action.incident, RolledBack)
                                          else SetState(recorded, action.incident, Escalated))
  {
    hide Finish, SaveRollbackRecord;
    AtCompensating(cfg, w, action, oracle);
    if !Dispatches(cfg, action, oracle) {
      MoveEnds(cfg, w, action.incident, FailedRemediation, Escalated, oracle);
    } else {
      var started := StartedRollback(action, cfg.catalog[action.actionType].rollbackKey, oracle);
      SavedRollback(w.db, started);
      var w1 := w.(db := SetRollback(w.db, started));
      RollbackCalled(cfg, w1, action, started, oracle);
      RollbackConcluded(cfg, w1.(log := w1.log + [RollbackCall(action.id)]), action, AnsweredRollback(started, oracle.rollback(action.id)), oracle);
      SetRollbackTwice(w.db, started, RollbackOf(cfg, action, oracle));
    }
  }

  lemma SavedRollback(db: Database, rollback: Rollback)
    requires rollback.action in db.actions
    ensures SaveRollbackRecord(db, rollback) == Done(SetRollback(db, rollback))
  {
  }

  function AnsweredRollback(started: Rollback, answer: AdapterOutcome): Rollback {
    started.(status := if answer == AdapterOk then RollbackSucceeded else RollbackFailed)
  }

  /** From the started record to the answer. */
  lemma RollbackCalled(cfg: Config, w: World, action: Action, started: Rollback, oracle: Oracle)
    ensures Finish(cfg, w, RollbackSaved(action, started), oracle)
            == Finish(cfg, w.(log := w.log + [RollbackCall(action.id)]), RollbackDone(action, AnsweredRollback(started, oracle.rollback(action.id))), oracle)
  {
    hide Finish;
    var rollback := AnsweredRollback(started, oracle.rollback(action.id));
    var w' := w.(log := w.log + [RollbackCall(action.id)]);
    FinishStep(cfg, w, RollbackSaved(action, started), w', RollbackCalling(action, started), oracle);
    FinishStep(cfg, w', RollbackCalling(action, started), w', RollbackDone(action, rollback), oracle);
  }

  /** From the answer to the end. */
  lemma RollbackConcluded(cfg: Config, w: World, action: Action, answered: Rollback, oracle: Oracle)
    requires action.id in w.db.actions && action.incident in w.db.incidents && answered.action == action.id
    requires w.db.incidents[action.incident].state == FailedRemediation
    ensures var fault := oracle.rollbackStore(action.id);
            var recorded := if fault == EndFault then w.db else SetRollback(w.db, answered);
            Finish(cfg, w, RollbackDone(action, answered), oracle)
            == Ending(w.(db := if answered.status == RollbackSucceeded && fault != EndFault && fault != MarkFault
                               then SetState(SetStatus(recorded, action.id, ActionRolledBack), action.incident, RolledBack)
                               else SetState(recorded, action.incident, Escalated)), true)
  {
    hide Finish, SaveRollbackRecord;
    var fault := oracle.rollbackStore(action.id);
    SavedRollback(w.db, answered);
    AtRollbackDone(cfg, w, action, answered, oracle);
    var w1 := w.(db := if fault == EndFault then w.db else SetRollback(w.db, answered));
    if fault != EndFault && answered.status == RollbackSucceeded {
      AtRollbackMarking(cfg, w1, action, oracle);
      if fault == MarkFault {
        MoveEnds(cfg, w1, action.incident, FailedRemediation, Escalated, oracle);
      } else {
        MoveEnds(cfg, w1.(db := SetStatus(w1.db, action.id, ActionRolledBack)), action.incident, FailedRemediation, RolledBack, oracle);
      }
    } else {
      MoveEnds(cfg, w1, action.incident, FailedRemediation, Escalated, oracle);
    }
  }

  /** From the marking of the action as failed to the end. */
  lemma UnwindingEnds(cfg: Config, w: World, action: Action, execution: Execution, oracle: Oracle)
    requires action.id in w.db.actions && action.incident in w.db.incidents
    requires w.db.incidents[action.incident].state == VerifyingAction && VerdictOf(cfg, oracle, action.id) == Failure
    requires oracle.rollbackId(action.id) !in w.db.rollbacks
    ensures var w2 := w.(db := SetState(w.db, action.incident, FailedRemediation));
            Finish(cfg, w, Unwinding(action, execution, Failure, VerifyingAction), oracle)
            == if HasRollbackPlan(cfg, action) then Finish(cfg, w2, Compensating(action), oracle)
               else Ending(w2.(db := SetState(w2.db, action.incident, Escalated)), true)
  {
    hide Finish, HasRollbackPlan;
    var w2 := w.(db := SetState(w.db, action.incident, FailedRemediation));
    AtUnwinding(cfg, w, action, execution, Failure, VerifyingAction, oracle);
    MoveEnds(cfg, w2, action.incident, FailedRemediation, Escalated, oracle);
  }

  lemma VerificationFails(cfg: Config, w: World, action: Action, execution: Execution, oracle: Oracle)
    requires action.id in w.db.actions && action.incident in w.db.incidents
    requires w.db.incidents[action.incident].state == VerifyingAction && VerdictOf(cfg, oracle, action.id) == Failure
    requires oracle.rollbackId(action.id) !in w.db.rollbacks
    ensures var ending := Finish(cfg, w, Unwinding(action, execution, Failure, VerifyingAction), oracle);
            && ending.ok
            && ending.world.log == VerifiedLog(cfg, w.log, action, oracle)
            && ending.world.db ==
                 if !Dispatches(cfg, action, oracle) then SetState(w.db, action.incident, Escalated)
                 else if Undone(cfg, action, oracle) then
                   SetRollback(SetState(SetStatus(w.db, action.id, ActionRolledBack), action.incident, RolledBack), RollbackOf(cfg, action, oracle))
                 else SetRollback(SetState(w.db, action.incident, Escalated), RollbackOf(cfg, action, oracle))
  {
    hide Finish, HasRollbackPlan;
    var w2 := w.(db := SetState(w.db, action.incident, FailedRemediation));
    UnwindingEnds(cfg, w, action, execution, oracle);
    SetStateTwice(w.db, action.incident, FailedRemediation, Escalated);
    SetStateTwice(w.db, action.incident, FailedRemediation, RolledBack);
    if HasRollbackPlan(cfg, action) {
      RollbackEnds(cfg, w2, action, oracle);
    }
  }

  /** From the evaluation to the saved verdict. */
  lemma VerdictSaved(cfg: Config, w: World, action: Action, execution: Execution, oracle: Oracle)
    requires action.incident in w.db.incidents && execution.id in w.db.executions
    requires w.db.incidents[action.incident].state == VerifyingAction
    ensures var verdict := VerdictOf(cfg, oracle, action.id);
            var w1 := w.(db := Judgement(w.db, execution.id, verdict));
            Finish(cfg, w, Verifying(action, execution), oracle)
            == Finish(cfg, w1, Concluding(action, execution, verdict, VerifyingAction), oracle)
  {
    hide Finish;
    var verdict := VerdictOf(cfg, oracle, action.id);
    var w1 := w.(db := Judgement(w.db, execution.id, verdict));
    FinishStep(cfg, w, Verifying(action, execution), w, Judged(action, execution, verdict, VerifyingAction), oracle);
    FinishStep(cfg, w, Judged(action, execution, verdict, VerifyingAction), w1, Concluding(action, execution, verdict, VerifyingAction), oracle);
  }

  /** From the saved verdict to the first decision. */
  lemma VerdictTaken(cfg: Config, w: World, action: Action, execution: Execution, verdict: Verdict, oracle: Oracle)
    requires action.id in w.db.actions
    ensures Finish(cfg, w, Concluding(action, execution, verdict, VerifyingAction), oracle)
            == if verdict == Success then Finish(cfg, w, Moving(action.incident, VerifyingAction, Resolved), oracle)
               else Finish(cfg, w.(db := SetStatus(w.db, action.id, Failed)), Unwinding(action, execution, verdict, VerifyingAction), oracle)
  {
    hide Finish;
    var thread := Concluding(action, execution, verdict, VerifyingAction);
    if verdict == Success {
      FinishStep(cfg, w, thread, w, Moving(action.incident, VerifyingAction, Resolved), oracle);
    } else {
      FinishStep(cfg, w, thread, w.(db := SetStatus(w.db, action.id, Failed)), Unwinding(action, execution, verdict, VerifyingAction), oracle);
    }
  }

  /** Verification is total: started on an incident that is verifying its action, it always returns
      and leaves exactly one of three outcomes, which the verdict, the rollback and its writes determine:
      resolved with the action succeeded; rolled back, with the action rolled back and a succeeded rollback
      record; or escalated with the action failed, also when a write of the rollback fails. */
  lemma VerificationIsTotal(cfg: Config, w: World, action: Action, execution: Execution, oracle: Oracle)
    requires action.id in w.db.actions && action.incident in w.db.incidents && execution.id in w.db.executions
    requires w.db.actions[action.id].status == Succeeded && w.db.incidents[action.incident].state == VerifyingAction
    requires oracle.rollbackId(action.id) !in w.db.rollbacks
    ensures var ending := Finish(cfg, w, Verifying(action, execution), oracle);
            && ending.ok
            && ending.world.db == VerifiedDb(cfg, w.db, action, execution.id, oracle)
            && ending.world.log == VerifiedLog(cfg, w.log, action, oracle)
  {
    hide Finish, HasRollbackPlan, CanRollBack, RollbackOf;
    var verdict := VerdictOf(cfg, oracle, action.id);
    var w1 := w.(db := Judgement(w.db, execution.id, verdict));
    var w2 := w1.(db := SetStatus(w1.db, action.id, Failed));
    VerdictSaved(cfg, w, action, execution, oracle);
    VerdictTaken(cfg, w1, action, execution, verdict, oracle);
    match verdict
    case Success =>
      MoveEnds(cfg, w1, action.incident, VerifyingAction, Resolved, oracle);
      assert w1.db.actions[action.id := w1.db.actions[action.id].(status := Succeeded)] == w1.db.actions;
    case Inconclusive =>
      FinishStep(cfg, w2, Unwinding(action, execution, verdict, VerifyingAction), w2, Moving(action.incident, VerifyingAction, Escalated), oracle);
      MoveEnds(cfg, w2, action.incident, VerifyingAction, Escalated, oracle);
    case Failure =>
      SetStatusTwice(w1.db, action.id, Failed, ActionRolledBack);
      VerificationFails(cfg, w2, action, execution, oracle);
  }
}
