/** The guarded execution protocol as a transition system. Every call of the service is a thread
    whose program counter sits between two accesses to the store; threads interleave freely, any
    of them may stop with an error, and a crash removes them all. */
module Protocol {
  import opened Domain
  import opened StateMachine
  import opened Tables
  import Digest
  import E = EvidenceItems
  import Policy

  datatype Config = Config(
    catalog: Catalog,
    topology: Policy.Topology,
    retries: nat,
    cooldown: int,
    verifies: bool, // a verifier is configured
    required: int, // consecutive observations a verification waits for
    rollsBack: bool, // a rollback service is configured
    evidence: (Id, int) -> seq<E.EvidenceItem>, // an incident's items as they stand at a time
    evidenceMaxAge: int)

  const APPROVAL_LIFETIME := 15 * 60 // seconds

  /** What validateApproval looked at when it let an action through. */
  datatype Certificate = NoCertificate | Certificate(approval: Approval, rule: string, checkedAt: int)

  /** One call of the external adapter. */
  datatype Dispatch =
    | ExecuteCall(action: Action, record: Id, certificate: Certificate)
    | RollbackCall(of: Id)

  datatype World = World(db: Database, log: seq<Dispatch>, now: int, killed: bool)

  datatype Thread =
    // ApproveAction
    | ApproveRead(action: Action, approver: string)
    | ApproveDecided(action: Action, record: Approval)
    | ApproveReady(action: Action, record: Approval, from: IncidentState)
    // RejectAction
    | RejectRead(action: Action, approver: string)
    | RejectReady(action: Action, record: Approval, from: IncidentState)
    // refreshIncidentState, and any last compare-and-swap of a call
    | Refreshing(incident: Id, from: IncidentState)
    | Moving(incident: Id, from: IncidentState, to: IncidentState)
    // runReadOnlyTriage and EvaluateActions
    | TriageRead(subject: Incident)
    | TriageCollected(subject: Incident)
    | TriageProposed(subject: Incident, actions: seq<Action>)
    | Evaluating(subject: Incident, todo: seq<Action>, decided: seq<Decision>)
    // ExecuteAction up to the claim
    | ExecRead(action: Action, initiator: string)
    | ExecListed(action: Action, initiator: string)
    | ExecDecision(action: Action, initiator: string, decision: Decision)
    | ExecCleared(action: Action, initiator: string, certificate: Certificate)
    | ExecArmed(action: Action, initiator: string, certificate: Certificate)
    | ExecReady(action: Action, initiator: string, certificate: Certificate)
    // ... and after it; recovery enters at Saving
    | Dispatching(action: Action, execution: Execution, certificate: Certificate, attempt: nat)
    | Calling(action: Action, execution: Execution, certificate: Certificate, attempt: nat)
    | Saving(action: Action, execution: Execution, from: IncidentState)
    | Marking(action: Action, execution: Execution, from: IncidentState)
    | Settling(action: Action, execution: Execution, from: IncidentState)
    // VerifyExecution
    | Verifying(action: Action, execution: Execution)
    | Judged(action: Action, execution: Execution, verdict: Verdict, from: IncidentState)
    | Concluding(action: Action, execution: Execution, verdict: Verdict, from: IncidentState)
    | Unwinding(action: Action, execution: Execution, verdict: Verdict, from: IncidentState)
    // RollbackAction
    | Compensating(action: Action)
    | RollbackSaved(action: Action, rollback: Rollback)
    | RollbackCalling(action: Action, rollback: Rollback)
    | RollbackDone(action: Action, rollback: Rollback)
    | RollbackMarking(action: Action)

  datatype AdapterOutcome = AdapterOk | AdapterTimeout | AdapterRetryable | AdapterFatal

  datatype Reconciliation = ReconciledSucceeded | ReconciledFailed | ReconciledPending | ReconciledUnknown

  /** What the environment decides in a step: generated actions, fresh ids, answers of the
      adapter, the verdict of an evaluation, or a failing write inside a rollback. */
  datatype Choice =
    | NoChoice
    | Generated(actions: seq<Action>)
    | Fresh(id: Id)
    | Answer(outcome: AdapterOutcome)
    | Evaluated(verdict: Verdict)
    | StoreError

  datatype Outcome =
    | Blocked // no such step
    | Running(world: World, thread: Thread)
    | Returned(world: World)
    | Aborted(world: World) // the call returns an error

  // ----- Approval service

  function ApprovalRecord(action: Action, approver: string, rule: string, now: int): Approval {
    Approval(action.id, approver, true, Digest.ActionApprovalDigest(action, rule), rule, Some(now + APPROVAL_LIFETIME), now)
  }

  function RejectionRecord(action: Action, approver: string, now: int): Approval {
    Approval(action.id, approver, false, "", "", None, now)
  }

  predicate Nonblank(name: string) {
    Digest.TrimSpace(name) != ""
  }

  function StepApprove(w: World, thread: Thread): Outcome
    requires thread.ApproveRead? || thread.ApproveDecided? || thread.ApproveReady?
  {
    match thread
    case ApproveRead(action, approver) =>
      if action.id !in w.db.decisions then Aborted(w)
      else Running(w, ApproveDecided(action, ApprovalRecord(action, approver, w.db.decisions[action.id].rule, w.now)))
    case ApproveDecided(action, record) =>
      if action.incident !in w.db.incidents then Aborted(w)
      else
        var from := w.db.incidents[action.incident].state;
        if from == Approved || CanTransition(from, Approved) then Running(w, ApproveReady(action, record, from)) else Aborted(w)
    case ApproveReady(action, record, from) =>
      match DecideApproval(w.db, action.incident, record, Awaiting, ActionApproved, Some(from), Some(Approved))
      case Done(db) => Returned(w.(db := db))
      case _ => Aborted(w)
  }

  function StepReject(w: World, thread: Thread): Outcome
    requires thread.RejectRead? || thread.RejectReady?
  {
    match thread
    case RejectRead(action, approver) =>
      if action.incident !in w.db.incidents then Aborted(w)
      else Running(w, RejectReady(action, RejectionRecord(action, approver, w.now), w.db.incidents[action.incident].state))
    case RejectReady(action, record, from) =>
      match DecideApproval(w.db, action.incident, record, Awaiting, Denied, None, None)
      case Done(db) => Running(w.(db := db), Refreshing(action.incident, from))
      case _ => Aborted(w)
  }

  /** refreshIncidentState's target: Approved beats AwaitingApproval beats ActionProposed. */
  function RefreshTarget(db: Database, incident: Id): IncidentState {
    if exists a :: a in db.actions && OpenAs(db, a, incident, ActionApproved) then Approved
    else if exists a :: a in db.actions && OpenAs(db, a, incident, Allowed) then Approved
    else if exists a :: a in db.actions && OpenAs(db, a, incident, Awaiting) then AwaitingApproval
    else ActionProposed
  }

  predicate OpenAs(db: Database, action: Id, incident: Id, status: ActionStatus)
    requires action in db.actions
  {
    db.actions[action].incident == incident && db.actions[action].status == status
  }

  /** transitionIncidentState with the caller's snapshot of the state. */
  function Transition(db: Database, incident: Id, from: IncidentState, to: IncidentState): Write {
    if from == to then Done(db)
    else if !CanTransition(from, to) then Refused
    else CompareAndSwapIncidentState(db, incident, from, to)
  }

  function StepIncident(w: World, thread: Thread): Outcome
    requires thread.Refreshing? || thread.Moving?
  {
    match thread
    case Refreshing(incident, from) => Running(w, Moving(incident, from, RefreshTarget(w.db, incident)))
    case Moving(incident, from, to) =>
      match Transition(w.db, incident, from, to)
      case Done(db) => Returned(w.(db := db))
      case _ => Aborted(w)
  }

  // ----- Triage and policy evaluation

  /** Action generators hand over new actions of the incident, proposed or already invalid. */
  ghost predicate FreshActions(db: Database, incident: Id, actions: seq<Action>) {
    && (forall k :: 0 <= k < |actions| ==>
          actions[k].id !in db.actions && actions[k].incident == incident && actions[k].status in {Proposed, Invalid})
    && (forall j, k :: 0 <= j < k < |actions| ==> actions[j].id != actions[k].id)
  }

  function Evaluable(actions: seq<Action>): seq<Action> {
    if actions == [] then []
    else
      var rest := Evaluable(actions[..|actions| - 1]);
      if actions[|actions| - 1].status == Invalid then rest else rest + [actions[|actions| - 1]]
  }

  ghost function StepTriage(cfg: Config, w: World, thread: Thread, choice: Choice): Outcome
    requires thread.TriageRead? || thread.TriageCollected? || thread.TriageProposed? || thread.Evaluating?
  {
    match thread
    case TriageRead(incident) =>
      (match Transition(w.db, incident.id, incident.state, Triaging)
       case Done(db) => Running(w.(db := db), TriageCollected(incident.(state := Triaging)))
       case _ => Aborted(w))
    case TriageCollected(incident) =>
      if choice.Generated? && FreshActions(w.db, incident.id, choice.actions) then
        Running(w.(db := SaveCandidateActions(w.db, choice.actions)), TriageProposed(incident, choice.actions))
      else Blocked
    case TriageProposed(incident, actions) =>
      if Evaluable(actions) == [] then Running(w, Moving(incident.id, Triaging, Escalated))
      else
        (match Transition(w.db, incident.id, Triaging, ActionProposed)
         case Done(db) => Running(w.(db := db), Evaluating(incident.(state := ActionProposed), Evaluable(actions), []))
         case _ => Aborted(w))
    case Evaluating(incident, todo, decided) =>
      if todo == [] then
        Running(w.(db := SavePolicyDecisions(w.db, decided)), Refreshing(incident.id, incident.state))
      else
        var decision := Policy.Evaluate(cfg.catalog, cfg.topology, todo[0], incident.environment, w.killed);
        (match UpdateCandidateActionStatus(w.db, todo[0].id, Policy.StatusFromDecision(decision))
         case Done(db) => Running(w.(db := db), Evaluating(incident, todo[1..], decided + [decision]))
         case _ => Aborted(w))
  }

  // ----- Execution service, up to the claim

  /** findDuplicateExecution: a running or successful execution, or one that ended within the cooldown. */
  predicate Duplicate(db: Database, action: Id, cooldown: int, now: int) {
    exists r :: r in db.executions && Blocks(db.executions[r], action, cooldown, now)
  }

  predicate Blocks(execution: Execution, action: Id, cooldown: int, now: int) {
    && execution.action == action
    && execution.key == ExecuteKey(action)
    && (execution.status == ExecStarted || execution.status == ExecSucceeded || now - execution.finishedAt < cooldown)
  }

  function Attempts(db: Database, action: Id): nat {
    |set r | r in db.executions && db.executions[r].action == action|
  }

  function CooldownOf(cfg: Config, definition: Definition): int {
    if definition.cooldown > 0 then definition.cooldown else cfg.cooldown
  }

  /** validateApproval: the newest approving record must be unexpired and match action and rule. */
  function ValidApproval(records: seq<Approval>, digest: string, rule: string, now: int): Option<Approval> {
    if records == [] then None
    else
      var last := records[|records| - 1];
      if !last.approved then ValidApproval(records[..|records| - 1], digest, rule, now)
      else if last.expiresAt.None? || last.expiresAt.value <= now then None
      else if last.digest != digest || last.policy != rule then None
      else Some(last)
  }

  predicate InScope(action: Action, incident: Incident, definition: Definition) {
    && (definition.environments == [] || incident.environment in definition.environments)
    && (definition.targets == [] || action.target in definition.targets)
  }

  /** The catalog checks at the head of ExecuteAction. */
  predicate MayExecute(cfg: Config, action: Action) {
    && action.actionType in cfg.catalog
    && cfg.catalog[action.actionType].executable
    && cfg.catalog[action.actionType].risk != RISK_HIGH
  }

  function EvidenceOf(cfg: Config, action: Action, now: int): E.Evidence {
    E.Evidence(cfg.evidence(action.incident, now), action.references, cfg.evidenceMaxAge)
  }

  function StepExecute(cfg: Config, w: World, thread: Thread, choice: Choice): Outcome
    requires thread.ExecRead? || thread.ExecListed? || thread.ExecDecision? || thread.ExecCleared? || thread.ExecArmed?
             || thread.ExecReady?
  {
    var action, initiator := thread.action, thread.initiator;
    if !MayExecute(cfg, action) then Aborted(w)
    else
      var definition := cfg.catalog[action.actionType];
      match thread
      case ExecRead(_, _) =>
        if Duplicate(w.db, action.id, CooldownOf(cfg, definition), w.now) then Aborted(w)
        else if definition.maxAttempts > 0 && Attempts(w.db, action.id) >= definition.maxAttempts then Aborted(w)
        else Running(w, ExecListed(action, initiator))
      case ExecListed(_, _) =>
        if !Executable(action.status) then Aborted(w)
        else if definition.risk == RISK_MEDIUM && action.status != ActionApproved then Aborted(w)
        else if action.status == Allowed then Running(w, ExecCleared(action, initiator, NoCertificate))
        else if action.id !in w.db.decisions then Aborted(w)
        else Running(w, ExecDecision(action, initiator, w.db.decisions[action.id]))
      case ExecDecision(_, _, decision) =>
        var digest := Digest.ActionApprovalDigest(action, decision.rule);
        (match ValidApproval(ApprovalsOf(w.db, action.id), digest, decision.rule, w.now)
         case Some(approval) => Running(w, ExecCleared(action, initiator, Certificate(approval, decision.rule, w.now)))
         case None => Aborted(w))
      case ExecCleared(_, _, certificate) =>
        if w.killed then Aborted(w) else Running(w, ExecArmed(action, initiator, certificate))
      case ExecArmed(_, _, certificate) =>
        if action.incident !in w.db.incidents || !InScope(action, w.db.incidents[action.incident], definition) then Aborted(w)
        else if !E.Current(EvidenceOf(cfg, action, w.now), w.now) then Aborted(w)
        else Running(w, ExecReady(action, initiator, certificate))
      case ExecReady(_, _, certificate) =>
        if !choice.Fresh? || choice.id in w.db.executions then Blocked
        else
          var record := Execution(choice.id, action.id, ExecuteKey(action.id), initiator, ExecStarted, w.now, w.now);
          (match ClaimExecution(w.db, action.incident, action.id, record)
           case Done(db) => Running(w.(db := db), Dispatching(action, record, certificate, 0))
           case _ => Aborted(w))
  }

  // ----- Dispatch with retries, and what is written afterwards

  function StepDispatch(cfg: Config, w: World, thread: Thread, choice: Choice): Outcome
    requires thread.Dispatching? || thread.Calling?
  {
    match thread
    case Dispatching(action, execution, certificate, attempt) =>
      Running(w.(log := w.log + [ExecuteCall(action, execution.id, certificate)]),
              Calling(action, execution, certificate, attempt))
    case Calling(action, execution, certificate, attempt) =>
      if !choice.Answer? then Blocked
      else
        var ended := execution.(finishedAt := w.now);
        match choice.outcome
        case AdapterOk => Running(w, Saving(action, ended.(status := ExecSucceeded), ExecutingAction))
        case AdapterTimeout => Running(w, Saving(action, ended.(status := ExecTimedOut), ExecutingAction))
        case AdapterFatal => Running(w, Saving(action, ended.(status := ExecFailed), ExecutingAction))
        case AdapterRetryable =>
          if attempt >= cfg.retries then Running(w, Saving(action, ended.(status := ExecFailed), ExecutingAction))
          else Running(w, Dispatching(action, execution, certificate, attempt + 1))
  }

  function ActionStatusAfter(status: ExecutionStatus): ActionStatus {
    if status == ExecSucceeded then Succeeded else Failed
  }

  function IncidentStateAfter(status: ExecutionStatus): IncidentState {
    match status
    case ExecSucceeded => VerifyingAction
    case ExecInconclusive => Escalated
    case _ => FailedRemediation
  }

  function StepSettle(cfg: Config, w: World, thread: Thread): Outcome
    requires thread.Saving? || thread.Marking? || thread.Settling?
  {
    match thread
    case Saving(action, execution, from) =>
      (match SaveExecutionRecord(w.db, execution)
       case Done(db) => Running(w.(db := db), Marking(action, execution, from))
       case _ => Aborted(w))
    case Marking(action, execution, from) =>
      (match UpdateCandidateActionStatus(w.db, action.id, ActionStatusAfter(execution.status))
       case Done(db) => Running(w.(db := db), Settling(action, execution, from))
       case _ => Aborted(w))
    case Settling(action, execution, from) =>
      match Transition(w.db, action.incident, from, IncidentStateAfter(execution.status))
      case Done(db) =>
        if execution.status == ExecSucceeded && cfg.verifies then Running(w.(db := db), Verifying(action, execution))
        else Returned(w.(db := db))
      case _ => Aborted(w)
  }

  // ----- Verification and rollback

  predicate HasRollbackPlan(cfg: Config, action: Action) {
    && action.actionType in cfg.catalog
    && cfg.catalog[action.actionType].supportsRollback
    && cfg.catalog[action.actionType].rollbackKey != ""
    && cfg.rollsBack
  }

  /** A verification that waits for several observations never reports a failure. */
  predicate MayReport(required: int, verdict: Verdict) {
    required > 1 ==> verdict != Failure
  }

  function StepVerify(cfg: Config, w: World, thread: Thread, choice: Choice): Outcome
    requires thread.Verifying? || thread.Judged? || thread.Concluding? || thread.Unwinding?
  {
    match thread
    case Verifying(action, execution) =>
      if !choice.Evaluated? || !MayReport(cfg.required, choice.verdict) then Blocked
      else if action.incident !in w.db.incidents then Aborted(w)
      else Running(w, Judged(action, execution, choice.verdict, w.db.incidents[action.incident].state))
    case Judged(action, execution, verdict, from) =>
      (match SaveVerificationResult(w.db, execution.id, verdict)
       case Done(db) => Running(w.(db := db), Concluding(action, execution, verdict, from))
       case _ => Aborted(w))
    case Concluding(action, execution, verdict, from) =>
      if verdict == Success then Running(w, Moving(action.incident, from, Resolved))
      else
        (match UpdateCandidateActionStatus(w.db, action.id, Failed)
         case Done(db) => Running(w.(db := db), Unwinding(action, execution, verdict, from))
         case _ => Aborted(w))
    case Unwinding(action, execution, verdict, from) =>
      if verdict == Inconclusive then Running(w, Moving(action.incident, from, Escalated))
      else
        match Transition(w.db, action.incident, from, FailedRemediation)
        case Done(db) =>
          if HasRollbackPlan(cfg, action) then Running(w.(db := db), Compensating(action))
          else Running(w.(db := db), Moving(action.incident, FailedRemediation, Escalated))
        case _ => Aborted(w)
  }

  function EscalateAfterRollback(w: World, action: Action): Outcome {
    Running(w, Moving(action.incident, FailedRemediation, Escalated))
  }

  function StepRollback(cfg: Config, w: World, thread: Thread, choice: Choice): Outcome
    requires thread.Compensating? || thread.RollbackSaved? || thread.RollbackCalling? || thread.RollbackDone?
             || thread.RollbackMarking?
  {
    var action := thread.action;
    match thread
    case Compensating(_) =>
      if action.actionType !in cfg.catalog then EscalateAfterRollback(w, action)
      else
        var key := cfg.catalog[action.actionType].rollbackKey;
        if key !in cfg.catalog || !cfg.catalog[key].executable || choice.StoreError? then EscalateAfterRollback(w, action)
        else if !choice.Fresh? || choice.id in w.db.rollbacks then Blocked
        else
          var rollback := Rollback(choice.id, action.id, key, "system:auto-rollback", RollbackStarted);
          (match SaveRollbackRecord(w.db, rollback)
           case Done(db) => Running(w.(db := db), RollbackSaved(action, rollback))
           case _ => EscalateAfterRollback(w, action))
    case RollbackSaved(_, rollback) =>
      Running(w.(log := w.log + [RollbackCall(action.id)]), RollbackCalling(action, rollback))
    case RollbackCalling(_, rollback) =>
      if !choice.Answer? then Blocked
      else if choice.outcome == AdapterOk then Running(w, RollbackDone(action, rollback.(status := RollbackSucceeded)))
      else Running(w, RollbackDone(action, rollback.(status := RollbackFailed)))
    case RollbackDone(_, rollback) =>
      if choice.StoreError? then EscalateAfterRollback(w, action)
      else
        (match SaveRollbackRecord(w.db, rollback)
         case Done(db) =>
           if rollback.status == RollbackSucceeded then Running(w.(db := db), RollbackMarking(action))
           else EscalateAfterRollback(w.(db := db), action)
         case _ => EscalateAfterRollback(w, action))
    case RollbackMarking(_) =>
      if choice.StoreError? then EscalateAfterRollback(w, action)
      else
        match UpdateCandidateActionStatus(w.db, action.id, ActionRolledBack)
        case Done(db) => Running(w.(db := db), Moving(action.incident, FailedRemediation, RolledBack))
        case _ => EscalateAfterRollback(w, action)
  }

  // ----- The whole system

  ghost function ThreadStep(cfg: Config, w: World, thread: Thread, choice: Choice): Outcome {
    match thread
    case ApproveRead(_, _) => StepApprove(w, thread)
    case ApproveDecided(_, _) => StepApprove(w, thread)
    case ApproveReady(_, _, _) => StepApprove(w, thread)
    case RejectRead(_, _) => StepReject(w, thread)
    case RejectReady(_, _, _) => StepReject(w, thread)
    case Refreshing(_, _) => StepIncident(w, thread)
    case Moving(_, _, _) => StepIncident(w, thread)
    case TriageRead(_) => StepTriage(cfg, w, thread, choice)
    case TriageCollected(_) => StepTriage(cfg, w, thread, choice)
    case TriageProposed(_, _) => StepTriage(cfg, w, thread, choice)
    case Evaluating(_, _, _) => StepTriage(cfg, w, thread, choice)
    case ExecRead(_, _) => StepExecute(cfg, w, thread, choice)
    case ExecListed(_, _) => StepExecute(cfg, w, thread, choice)
    case ExecDecision(_, _, _) => StepExecute(cfg, w, thread, choice)
    case ExecCleared(_, _, _) => StepExecute(cfg, w, thread, choice)
    case ExecArmed(_, _, _) => StepExecute(cfg, w, thread, choice)
    case ExecReady(_, _, _) => StepExecute(cfg, w, thread, choice)
    case Dispatching(_, _, _, _) => StepDispatch(cfg, w, thread, choice)
    case Calling(_, _, _, _) => StepDispatch(cfg, w, thread, choice)
    case Saving(_, _, _) => StepSettle(cfg, w, thread)
    case Marking(_, _, _) => StepSettle(cfg, w, thread)
    case Settling(_, _, _) => StepSettle(cfg, w, thread)
    case Verifying(_, _) => StepVerify(cfg, w, thread, choice)
    case Judged(_, _, _, _) => StepVerify(cfg, w, thread, choice)
    case Concluding(_, _, _, _) => StepVerify(cfg, w, thread, choice)
    case Unwinding(_, _, _, _) => StepVerify(cfg, w, thread, choice)
    case Compensating(_) => StepRollback(cfg, w, thread, choice)
    case RollbackSaved(_, _) => StepRollback(cfg, w, thread, choice)
    case RollbackCalling(_, _) => StepRollback(cfg, w, thread, choice)
    case RollbackDone(_, _) => StepRollback(cfg, w, thread, choice)
    case RollbackMarking(_) => StepRollback(cfg, w, thread, choice)
  }

  /** A process is down, reconciling the executions found started at boot, or serving calls. */
  datatype Phase = Down | Recovering(todo: seq<Execution>) | Serving

  datatype State = State(world: World, phase: Phase, threads: map<int, Thread>)

  datatype Step =
    | Tick(now: int)
    | SetKillSwitch(killed: bool)
    | Ingest(incident: Incident)
    | Start(tid: int, thread: Thread)
    | Advance(tid: int, choice: Choice)
    | Abort(tid: int)
    | Crash
    | Boot(todo: seq<Execution>)
    | Reconcile(status: Reconciliation, now: int)
    | Serve

  /** The first program counter of a call, just after it loaded the row it works on. */
  ghost predicate Startable(cfg: Config, w: World, thread: Thread) {
    match thread
    case ApproveRead(action, approver) =>
      Nonblank(approver) && action.id in w.db.actions && w.db.actions[action.id] == action && action.status == Awaiting
    case RejectRead(action, approver) =>
      Nonblank(approver) && action.id in w.db.actions && w.db.actions[action.id] == action && action.status == Awaiting
    case ExecRead(action, initiator) =>
      initiator != "" && action.id in w.db.actions && w.db.actions[action.id] == action && MayExecute(cfg, action)
    case TriageRead(incident) =>
      incident.id in w.db.incidents && w.db.incidents[incident.id] == incident && !Terminal(incident.state)
    // webhook intake and background escalation: a compare-and-swap along an edge of the table
    case Moving(incident, from, to) => incident in w.db.incidents && CanTransition(from, to)
    case _ => false
  }

  /** The executions found started at boot, each once, in any order. */
  ghost predicate StartedExecutions(db: Database, todo: seq<Execution>) {
    && (forall k :: 0 <= k < |todo| ==>
          todo[k].id in db.executions && db.executions[todo[k].id] == todo[k] && todo[k].status == ExecStarted)
    && (forall j, k :: 0 <= j < k < |todo| ==> todo[j].id != todo[k].id)
    && (forall r :: r in db.executions && db.executions[r].status == ExecStarted ==> db.executions[r] in todo)
  }

  function ReconciledStatus(status: Reconciliation): ExecutionStatus {
    match status
    case ReconciledSucceeded => ExecSucceeded
    case ReconciledFailed => ExecFailed
    case ReconciledPending => ExecInconclusive
    case ReconciledUnknown => ExecInconclusive
  }

  /** A call has ended; during recovery an error ends the process. */
  function Ended(s: State, w: World, tid: int, failed: bool): State {
    if failed && s.phase.Recovering? then State(w, Down, map[])
    else s.(world := w, threads := s.threads - {tid})
  }

  ghost predicate StepTo(cfg: Config, s: State, s': State, step: Step) {
    var w := s.world;
    match step
    case Tick(now) => now >= w.now && s' == s.(world := w.(now := now))
    case SetKillSwitch(killed) => s' == s.(world := w.(killed := killed))
    case Ingest(incident) =>
      && s.phase.Serving? && incident.id !in w.db.incidents && incident.state in {Detected, Triaging}
      && s' == s.(world := w.(db := w.db.(incidents := w.db.incidents[incident.id := incident])))
    case Start(tid, thread) =>
      && s.phase.Serving? && tid !in s.threads && Startable(cfg, w, thread)
      && s' == s.(threads := s.threads[tid := thread])
    case Advance(tid, choice) =>
      && tid in s.threads
      && (match ThreadStep(cfg, w, s.threads[tid], choice)
          case Blocked => false
          case Running(w', thread') => s' == s.(world := w', threads := s.threads[tid := thread'])
          case Returned(w') => s' == Ended(s, w', tid, false)
          case Aborted(w') => s' == Ended(s, w', tid, true))
    case Abort(tid) => tid in s.threads && s' == Ended(s, w, tid, true)
    case Crash => s' == State(w, Down, map[])
    case Boot(todo) => s.phase.Down? && StartedExecutions(w.db, todo) && s' == s.(phase := Recovering(todo))
    case Reconcile(status, now) =>
      && s.phase.Recovering? && s.phase.todo != [] && s.threads == map[]
      && var execution := s.phase.todo[0];
         var rest := s.phase.todo[1..];
         if execution.action !in w.db.actions || w.db.actions[execution.action].incident !in w.db.incidents then
           s' == State(w, Down, map[])
         else
           var action := w.db.actions[execution.action];
           var reconciled := execution.(status := ReconciledStatus(status), finishedAt := now);
           s' == State(w, Recovering(rest), map[0 := Saving(action, reconciled, w.db.incidents[action.incident].state)])
    case Serve => s.phase == Recovering([]) && s.threads == map[] && s' == s.(phase := Serving)
  }

  ghost predicate Next(cfg: Config, s: State, s': State) {
    exists step :: StepTo(cfg, s, s', step)
  }

  ghost predicate Init(s: State) {
    s.world.db == EMPTY && s.world.log == [] && s.phase == Down && s.threads == map[]
  }

  ghost predicate StepAt(cfg: Config, run: seq<State>, k: int)
    requires 0 < k < |run|
  {
    Next(cfg, run[k - 1], run[k])
  }

  ghost predicate Run(cfg: Config, run: seq<State>) {
    && run != [] && Init(run[0])
    && forall k :: 0 < k < |run| ==> StepAt(cfg, run, k)
  }
}
