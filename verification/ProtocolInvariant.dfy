/** The inductive invariant of the protocol. The store part speaks of the tables and the dispatch
    log, the thread part of what each program counter knows. A call past its claim, or an
    evaluation in progress, owns action ids; a step may rewrite freely only what it owns. */
module ProtocolInvariant {
  import opened Domain
  import opened StateMachine
  import opened Tables
  import opened Protocol
  import Digest

  // ----- The store

  /** Statuses only a claimed action can have. */
  predicate Claimed(status: ActionStatus) {
    status == Executing || status == Succeeded || status == Failed || status == ActionRolledBack
  }

  ghost predicate Rows(db: Database) {
    && (forall a :: a in db.actions ==> db.actions[a].id == a)
    && (forall r :: r in db.executions ==> db.executions[r].id == r && db.executions[r].action in db.actions
                                           && db.executions[r].key == ExecuteKey(db.executions[r].action))
    && (forall a :: a in db.decisions ==> a in db.actions && db.decisions[a].kind != Allow)
    && (forall a :: a in db.approvals ==> a in db.actions)
  }

  /** The two records are of one action. */
  predicate SameAction(db: Database, r1: Id, r2: Id)
    requires r1 in db.executions && r2 in db.executions
  {
    db.executions[r1].action == db.executions[r2].action
  }

  ghost predicate OneRecordPerAction(db: Database) {
    forall r1, r2 :: r1 in db.executions && r2 in db.executions && SameAction(db, r1, r2) ==> r1 == r2
  }

  ghost predicate RecordsMatchStatus(db: Database) {
    forall a :: a in db.actions ==> RecordMatchesStatus(db, a)
  }

  ghost predicate RecordMatchesStatus(db: Database, a: Id)
    requires a in db.actions
  {
    db.actions[a].status != Allowed && (Recorded(db, a) <==> Claimed(db.actions[a].status))
  }

  ghost predicate StartedMeansExecuting(db: Database)
    requires Rows(db)
  {
    forall r :: r in db.executions && db.executions[r].status == ExecStarted
                ==> db.actions[db.executions[r].action].status == Executing
  }

  /** Both records are started, on the same target. */
  ghost predicate Collide(db: Database, r1: Id, r2: Id)
    requires Rows(db) && r1 in db.executions && r2 in db.executions
  {
    && db.executions[r1].status == ExecStarted && db.executions[r2].status == ExecStarted
    && db.actions[db.executions[r1].action].target == db.actions[db.executions[r2].action].target
  }

  ghost predicate TargetsExclusive(db: Database)
    requires Rows(db)
  {
    forall r1, r2 :: r1 in db.executions && r2 in db.executions && Collide(db, r1, r2) ==> r1 == r2
  }

  /** The approval was given by a named person for exactly this action under its saved policy rule. */
  ghost predicate Covers(db: Database, approval: Approval, action: Action) {
    && approval.action == action.id && approval.approved && Nonblank(approval.approver)
    && action.id in db.decisions && approval.policy == db.decisions[action.id].rule
    && approval.digest == Digest.ActionApprovalDigest(action, approval.policy)
    && approval.expiresAt == Some(approval.createdAt + APPROVAL_LIFETIME)
  }

  ghost predicate ApprovalsSound(db: Database) {
    forall a :: a in db.actions ==> ApprovalsSoundFor(db, a)
  }

  /** An action is decided at most once, and only an approved one is claimed. */
  ghost predicate ApprovalsSoundFor(db: Database, a: Id)
    requires a in db.actions
  {
    var records, status := ApprovalsOf(db, a), db.actions[a].status;
    && |records| <= 1
    && (status == Proposed || status == Invalid || status == Awaiting ==> records == [])
    && (status == ActionApproved || Claimed(status) ==> |records| == 1 && records[0].approved)
    && (forall x :: x in records ==> x.action == a && Nonblank(x.approver) && (x.approved ==> Covers(db, x, db.actions[a])))
  }

  // ----- The dispatch log

  function ExecuteCalls(log: seq<Dispatch>, action: Id): nat {
    if log == [] then 0
    else
      var last := log[|log| - 1];
      ExecuteCalls(log[..|log| - 1], action) + if last.ExecuteCall? && last.action.id == action then 1 else 0
  }

  function RollbackCalls(log: seq<Dispatch>, action: Id): nat {
    if log == [] then 0
    else
      var last := log[|log| - 1];
      RollbackCalls(log[..|log| - 1], action) + if last == RollbackCall(action) then 1 else 0
  }

  /** The certificate is a stored approval of the action that was unexpired when it was checked. */
  ghost predicate Certified(db: Database, action: Action, certificate: Certificate) {
    && certificate.Certificate?
    && certificate.approval in ApprovalsOf(db, action.id)
    && Covers(db, certificate.approval, action)
    && certificate.checkedAt < certificate.approval.expiresAt.value
  }

  ghost predicate Row(db: Database, action: Action) {
    action.id in db.actions && db.actions[action.id].SameContent(action)
  }

  ghost predicate CallSound(db: Database, call: Dispatch) {
    call.ExecuteCall? ==>
      && Row(db, call.action) && Certified(db, call.action, call.certificate)
      && call.record in db.executions && db.executions[call.record].action == call.action.id
  }

  ghost predicate CallsBounded(cfg: Config, db: Database, log: seq<Dispatch>) {
    && (forall a :: ExecuteCalls(log, a) <= cfg.retries + 1 && (ExecuteCalls(log, a) > 0 ==> Recorded(db, a)))
    && (forall a :: RollbackCalls(log, a) <= 1
                    && (RollbackCalls(log, a) > 0 ==> a in db.actions && db.actions[a].status in {Failed, ActionRolledBack}))
  }

  ghost predicate LogSound(db: Database, log: seq<Dispatch>) {
    forall k :: 0 <= k < |log| ==> CallSound(db, log[k])
  }

  ghost predicate DbInv(db: Database) {
    && Rows(db) && OneRecordPerAction(db) && RecordsMatchStatus(db)
    && StartedMeansExecuting(db) && TargetsExclusive(db) && ApprovalsSound(db)
  }

  ghost predicate WorldInv(cfg: Config, w: World) {
    DbInv(w.db) && LogSound(w.db, w.log) && CallsBounded(cfg, w.db, w.log)
  }

  // ----- The threads

  ghost function Ids(actions: seq<Action>): set<Id> {
    set k | 0 <= k < |actions| :: actions[k].id
  }

  ghost function DecidedIds(decisions: seq<Decision>): set<Id> {
    set k | 0 <= k < |decisions| :: decisions[k].action
  }

  predicate PastClaim(thread: Thread) {
    || thread.Dispatching? || thread.Calling? || thread.Saving? || thread.Marking? || thread.Settling?
    || thread.Verifying? || thread.Judged? || thread.Concluding? || thread.Unwinding?
    || thread.Compensating? || thread.RollbackSaved? || thread.RollbackCalling? || thread.RollbackDone?
    || thread.RollbackMarking?
  }

  ghost function Owned(thread: Thread): set<Id> {
    if PastClaim(thread) then {thread.action.id}
    else if thread.TriageProposed? then Ids(thread.actions)
    else if thread.Evaluating? then Ids(thread.todo) + DecidedIds(thread.decided)
    else {}
  }

  /** The thread's record is its action's record, and the action has the given status. */
  ghost predicate Holds(w: World, action: Action, execution: Execution, status: ActionStatus, rollbacks: nat) {
    && Row(w.db, action) && w.db.actions[action.id].status == status
    && execution.action == action.id && execution.key == ExecuteKey(action.id)
    && execution.id in w.db.executions && w.db.executions[execution.id].action == action.id
    && RollbackCalls(w.log, action.id) == rollbacks
  }

  ghost predicate Undecided(db: Database, action: Action, status: ActionStatus) {
    Row(db, action) && db.actions[action.id].status == status && action.id !in db.decisions
  }

  ghost predicate EvaluatingInv(db: Database, todo: seq<Action>, decided: seq<Decision>) {
    && (forall k :: 0 <= k < |todo| ==> Undecided(db, todo[k], Proposed))
    && (forall k :: 0 <= k < |decided| ==> && decided[k].action in db.actions && decided[k].action !in db.decisions
                                           && decided[k].kind != Allow)
    && (forall j, k :: 0 <= j < k < |todo| ==> todo[j].id != todo[k].id)
    && (forall j, k :: 0 <= j < k < |decided| ==> decided[j].action != decided[k].action)
    && (forall j, k :: 0 <= j < |todo| && 0 <= k < |decided| ==> todo[j].id != decided[k].action)
  }

  ghost predicate ProposedInv(db: Database, actions: seq<Action>) {
    && (forall k :: 0 <= k < |actions| ==> && actions[k].status in {Proposed, Invalid}
                                           && Undecided(db, actions[k], actions[k].status))
    && (forall j, k :: 0 <= j < k < |actions| ==> actions[j].id != actions[k].id)
  }

  ghost predicate ThreadInv(cfg: Config, w: World, thread: Thread) {
    match thread
    case ApproveRead(action, approver) => Row(w.db, action) && Nonblank(approver)
    case ApproveDecided(action, record) => Row(w.db, action) && Covers(w.db, record, action)
    case ApproveReady(action, record, from) =>
      Row(w.db, action) && Covers(w.db, record, action) && (from == Approved || CanTransition(from, Approved))
    case RejectRead(action, approver) => Row(w.db, action) && Nonblank(approver)
    case RejectReady(action, record, from) =>
      Row(w.db, action) && record.action == action.id && !record.approved && Nonblank(record.approver)
    case Refreshing(incident, from) => true
    case Moving(incident, from, to) => true
    case TriageRead(incident) => true
    case TriageCollected(incident) => true
    case TriageProposed(incident, actions) => ProposedInv(w.db, actions)
    case Evaluating(incident, todo, decided) => EvaluatingInv(w.db, todo, decided)
    case ExecRead(action, initiator) => Row(w.db, action) && action.status != Allowed
    case ExecListed(action, initiator) => Row(w.db, action) && action.status != Allowed
    case ExecDecision(action, initiator, decision) =>
      Row(w.db, action) && action.id in w.db.decisions && w.db.decisions[action.id] == decision
    case ExecCleared(action, initiator, certificate) => Row(w.db, action) && Certified(w.db, action, certificate)
    case ExecArmed(action, initiator, certificate) => Row(w.db, action) && Certified(w.db, action, certificate)
    case ExecReady(action, initiator, certificate) => Row(w.db, action) && Certified(w.db, action, certificate)
    case Dispatching(action, execution, certificate, attempt) =>
      && Holds(w, action, execution, Executing, 0) && w.db.executions[execution.id] == execution
      && execution.status == ExecStarted && Certified(w.db, action, certificate)
      && ExecuteCalls(w.log, action.id) == attempt <= cfg.retries
    case Calling(action, execution, certificate, attempt) =>
      && Holds(w, action, execution, Executing, 0) && w.db.executions[execution.id] == execution
      && execution.status == ExecStarted && Certified(w.db, action, certificate)
      && ExecuteCalls(w.log, action.id) == attempt + 1 <= cfg.retries + 1
    case Saving(action, execution, from) =>
      && Holds(w, action, execution, Executing, 0) && w.db.executions[execution.id].status == ExecStarted
      && execution.status != ExecStarted
    case Marking(action, execution, from) =>
      && Holds(w, action, execution, Executing, 0) && w.db.executions[execution.id] == execution
      && execution.status != ExecStarted
    case Settling(action, execution, from) =>
      Holds(w, action, execution, ActionStatusAfter(execution.status), 0)
    case Verifying(action, execution) => Holds(w, action, execution, Succeeded, 0)
    case Judged(action, execution, verdict, from) => Holds(w, action, execution, Succeeded, 0)
    case Concluding(action, execution, verdict, from) => Holds(w, action, execution, Succeeded, 0)
    case Unwinding(action, execution, verdict, from) => Holds(w, action, execution, Failed, 0)
    case Compensating(action) => Compensates(w, action, 0)
    case RollbackSaved(action, rollback) => Compensates(w, action, 0)
    case RollbackCalling(action, rollback) => Compensates(w, action, 1)
    case RollbackDone(action, rollback) => Compensates(w, action, 1)
    case RollbackMarking(action) => Compensates(w, action, 1)
  }

  ghost predicate Compensates(w: World, action: Action, calls: nat) {
    && Row(w.db, action) && w.db.actions[action.id].status == Failed && Recorded(w.db, action.id)
    && RollbackCalls(w.log, action.id) == calls
  }

  // ----- What one step may do to the others

  /** The edges of an action's life. */
  predicate StatusEdge(from: ActionStatus, to: ActionStatus) {
    || (from == Proposed && (to == Awaiting || to == Denied))
    || GuardedEdge(from, to)
    || (from == Executing && (to == Succeeded || to == Failed))
    || (from == Succeeded && to == Failed)
    || (from == Failed && to == ActionRolledBack)
  }

  /** The edges taken under a guard checked in the same transaction. */
  predicate GuardedEdge(from: ActionStatus, to: ActionStatus) {
    || (from == Awaiting && (to == ActionApproved || to == Denied))
    || (from == ActionApproved && to == Executing)
  }

  ghost predicate ActionsKept(db: Database, db': Database, own: set<Id>) {
    forall a :: a in db.actions ==> ActionKept(db, db', own, a)
  }

  ghost predicate ActionKept(db: Database, db': Database, own: set<Id>, a: Id)
    requires a in db.actions
  {
    && a in db'.actions && db'.actions[a].SameContent(db.actions[a])
    && var from, to := db.actions[a].status, db'.actions[a].status;
       from == to || GuardedEdge(from, to) || (a in own && StatusEdge(from, to))
  }

  ghost predicate DecisionsKept(db: Database, db': Database, own: set<Id>) {
    && (forall a :: a in db.decisions ==> a in db'.decisions && db'.decisions[a] == db.decisions[a])
    && (forall a :: a in db'.decisions ==> a in db.decisions || a in own)
  }

  ghost predicate ExecutionsKept(db: Database, db': Database, own: set<Id>) {
    forall r :: r in db.executions ==>
      && r in db'.executions && db'.executions[r].action == db.executions[r].action
      && (db.executions[r].action in own || db'.executions[r] == db.executions[r])
  }

  ghost predicate ApprovalsKept(db: Database, db': Database) {
    forall a, x :: x in ApprovalsOf(db, a) ==> x in ApprovalsOf(db', a)
  }

  ghost predicate LogKept(log: seq<Dispatch>, log': seq<Dispatch>, own: set<Id>) {
    && (forall a :: a !in own ==> ExecuteCalls(log', a) == ExecuteCalls(log, a))
    && (forall a :: a !in own ==> RollbackCalls(log', a) == RollbackCalls(log, a))
  }

  /** An incident's state stays, moves along the table, or is taken to ExecutingAction by a claim. */
  ghost predicate IncidentsMove(db: Database, db': Database) {
    forall i :: i in db.incidents ==> IncidentMoves(db, db', i)
  }

  ghost predicate IncidentMoves(db: Database, db': Database, i: Id)
    requires i in db.incidents
  {
    && i in db'.incidents
    && var from, to := db.incidents[i].state, db'.incidents[i].state;
       from == to || CanTransition(from, to) || (to == ExecutingAction && NewlyClaimed(db, db', i))
  }

  /** Some action of the incident was recorded in this step. */
  ghost predicate NewlyClaimed(db: Database, db': Database, i: Id) {
    exists a :: a in db.actions && db.actions[a].incident == i && !Recorded(db, a) && Recorded(db', a)
  }

  ghost predicate Guarantee(w: World, w': World, own: set<Id>) {
    && ActionsKept(w.db, w'.db, own) && DecisionsKept(w.db, w'.db, own) && ExecutionsKept(w.db, w'.db, own)
    && ApprovalsKept(w.db, w'.db) && LogKept(w.log, w'.log, own) && IncidentsMove(w.db, w'.db)
  }

  /** A step may come to own new actions, and an action nobody owns: an approved one without a record. */
  ghost predicate Acquires(db: Database, before: set<Id>, after: set<Id>) {
    forall a :: a in after && a !in before && a in db.actions ==> db.actions[a].status == ActionApproved
  }

  ghost predicate Good(cfg: Config, w: World, thread: Thread, outcome: Outcome) {
    !outcome.Blocked? ==>
      && WorldInv(cfg, outcome.world)
      && Guarantee(w, outcome.world, Owned(thread))
      && (outcome.Running? ==> && ThreadInv(cfg, outcome.world, outcome.thread)
                               && Acquires(w.db, Owned(thread), Owned(outcome.thread)))
  }

  // ----- Stability: what a thread knows survives the steps of the others

  lemma CertifiedKept(w: World, w': World, own: set<Id>, action: Action, certificate: Certificate)
    requires Guarantee(w, w', own) && Certified(w.db, action, certificate)
    ensures Certified(w'.db, action, certificate)
  {
  }

  lemma RecordedKept(db: Database, db': Database, own: set<Id>, a: Id)
    requires ExecutionsKept(db, db', own) && Recorded(db, a)
    ensures Recorded(db', a)
  {
    var r :| r in db.executions && db.executions[r].action == a;
    assert r in db'.executions && db'.executions[r].action == a;
  }

  lemma HoldsKept(w: World, w': World, own: set<Id>, action: Action, execution: Execution, status: ActionStatus, rollbacks: nat)
    requires Guarantee(w, w', own) && action.id !in own && Holds(w, action, execution, status, rollbacks) && Claimed(status)
    ensures Holds(w', action, execution, status, rollbacks)
    ensures w'.db.executions[execution.id] == w.db.executions[execution.id]
    ensures ExecuteCalls(w'.log, action.id) == ExecuteCalls(w.log, action.id)
  {
    assert ActionKept(w.db, w'.db, own, action.id);
  }

  lemma UndecidedKept(w: World, w': World, own: set<Id>, action: Action, status: ActionStatus)
    requires Guarantee(w, w', own) && action.id !in own && Undecided(w.db, action, status)
    requires status == Proposed || status == Invalid
    ensures Undecided(w'.db, action, status)
  {
    assert ActionKept(w.db, w'.db, own, action.id);
  }

  lemma EvaluatingKept(w: World, w': World, own: set<Id>, todo: seq<Action>, decided: seq<Decision>)
    requires Guarantee(w, w', own) && (Ids(todo) + DecidedIds(decided)) !! own && EvaluatingInv(w.db, todo, decided)
    ensures EvaluatingInv(w'.db, todo, decided)
  {
    forall k | 0 <= k < |todo| ensures Undecided(w'.db, todo[k], Proposed) {
      assert todo[k].id in Ids(todo);
      UndecidedKept(w, w', own, todo[k], Proposed);
    }
    forall k | 0 <= k < |decided| ensures decided[k].action in w'.db.actions && decided[k].action !in w'.db.decisions {
      assert decided[k].action in DecidedIds(decided);
      assert ActionKept(w.db, w'.db, own, decided[k].action);
    }
  }

  lemma ProposedKept(w: World, w': World, own: set<Id>, actions: seq<Action>)
    requires Guarantee(w, w', own) && Ids(actions) !! own && ProposedInv(w.db, actions)
    ensures ProposedInv(w'.db, actions)
  {
    forall k | 0 <= k < |actions| ensures Undecided(w'.db, actions[k], actions[k].status) {
      assert actions[k].id in Ids(actions);
      UndecidedKept(w, w', own, actions[k], actions[k].status);
    }
  }

  lemma RowKept(w: World, w': World, own: set<Id>, action: Action)
    requires Guarantee(w, w', own) && Row(w.db, action)
    ensures Row(w'.db, action)
  {
    assert ActionKept(w.db, w'.db, own, action.id);
  }

  /** Non-interference: a step by the owner of some actions leaves every other thread's knowledge true. */
  lemma Stable(cfg: Config, w: World, w': World, own: set<Id>, thread: Thread)
    requires Guarantee(w, w', own) && Owned(thread) !! own && ThreadInv(cfg, w, thread)
    ensures ThreadInv(cfg, w', thread)
  {
    if PastClaim(thread) {
      StablePastClaim(cfg, w, w', own, thread);
    } else if thread.TriageProposed? {
      ProposedKept(w, w', own, thread.actions);
    } else if thread.Evaluating? {
      EvaluatingKept(w, w', own, thread.todo, thread.decided);
    } else if !(thread.Refreshing? || thread.Moving? || thread.TriageRead? || thread.TriageCollected?) {
      RowKept(w, w', own, thread.action);
      if thread.ExecCleared? || thread.ExecArmed? || thread.ExecReady? {
        CertifiedKept(w, w', own, thread.action, thread.certificate);
      }
    }
  }

  lemma StablePastClaim(cfg: Config, w: World, w': World, own: set<Id>, thread: Thread)
    requires Guarantee(w, w', own) && PastClaim(thread) && thread.action.id !in own && ThreadInv(cfg, w, thread)
    ensures ThreadInv(cfg, w', thread)
  {
    hide Guarantee, ThreadInv;
    if thread.Dispatching? || thread.Calling? {
      StableDispatch(cfg, w, w', own, thread);
    } else if thread.Saving? || thread.Marking? || thread.Settling? {
      StableSettle(cfg, w, w', own, thread);
    } else if thread.Verifying? || thread.Judged? || thread.Concluding? || thread.Unwinding? {
      StableVerify(cfg, w, w', own, thread);
    } else {
      StableRollback(cfg, w, w', own, thread);
    }
  }

  lemma StableDispatch(cfg: Config, w: World, w': World, own: set<Id>, thread: Thread)
    requires thread.Dispatching? || thread.Calling?
    requires Guarantee(w, w', own) && thread.action.id !in own && ThreadInv(cfg, w, thread)
    ensures ThreadInv(cfg, w', thread)
  {
    hide Guarantee, Certified, Holds, Compensates;
    match thread
    case Dispatching(action, execution, certificate, _) =>
      HoldsKept(w, w', own, action, execution, Executing, 0);
      CertifiedKept(w, w', own, action, certificate);
    case Calling(action, execution, certificate, _) =>
      HoldsKept(w, w', own, action, execution, Executing, 0);
      CertifiedKept(w, w', own, action, certificate);
  }

  lemma StableSettle(cfg: Config, w: World, w': World, own: set<Id>, thread: Thread)
    requires thread.Saving? || thread.Marking? || thread.Settling?
    requires Guarantee(w, w', own) && thread.action.id !in own && ThreadInv(cfg, w, thread)
    ensures ThreadInv(cfg, w', thread)
  {
    hide Guarantee, Certified, Holds, Compensates;
    match thread
    case Saving(action, execution, _) => HoldsKept(w, w', own, action, execution, Executing, 0);
    case Marking(action, execution, _) => HoldsKept(w, w', own, action, execution, Executing, 0);
    case Settling(action, execution, _) => HoldsKept(w, w', own, action, execution, ActionStatusAfter(execution.status), 0);
  }

  lemma StableVerify(cfg: Config, w: World, w': World, own: set<Id>, thread: Thread)
    requires thread.Verifying? || thread.Judged? || thread.Concluding? || thread.Unwinding?
    requires Guarantee(w, w', own) && thread.action.id !in own && ThreadInv(cfg, w, thread)
    ensures ThreadInv(cfg, w', thread)
  {
    hide Guarantee, Certified, Holds, Compensates;
    match thread
    case Verifying(action, execution) => HoldsKept(w, w', own, action, execution, Succeeded, 0);
    case Judged(action, execution, _, _) => HoldsKept(w, w', own, action, execution, Succeeded, 0);
    case Concluding(action, execution, _, _) => HoldsKept(w, w', own, action, execution, Succeeded, 0);
    case Unwinding(action, execution, _, _) => HoldsKept(w, w', own, action, execution, Failed, 0);
  }

  lemma StableRollback(cfg: Config, w: World, w': World, own: set<Id>, thread: Thread)
    requires thread.Compensating? || thread.RollbackSaved? || thread.RollbackCalling? || thread.RollbackDone? || thread.RollbackMarking?
    requires Guarantee(w, w', own) && thread.action.id !in own && ThreadInv(cfg, w, thread)
    ensures ThreadInv(cfg, w', thread)
  {
    hide Guarantee, Certified, Holds, Compensates;
    CompensatesKept(w, w', own, thread.action, if thread.Compensating? || thread.RollbackSaved? then 0 else 1);
  }

  lemma CompensatesKept(w: World, w': World, own: set<Id>, action: Action, calls: nat)
    requires Guarantee(w, w', own) && action.id !in own && Compensates(w, action, calls)
    ensures Compensates(w', action, calls)
  {
    assert ActionKept(w.db, w'.db, own, action.id);
    RecordedKept(w.db, w'.db, own, action.id);
  }
}
