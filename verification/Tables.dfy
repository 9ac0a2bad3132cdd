/** The relational store. Each function is one transaction: all of it happens, or nothing. */
module Tables {
  import opened Domain
  import opened StateMachine

  datatype Database = Database(
    incidents: map<Id, Incident>,
    actions: map<Id, Action>,
    decisions: map<Id, Decision>,
    approvals: map<Id, seq<Approval>>, // by action, oldest first
    executions: map<Id, Execution>,
    verdicts: map<Id, Verification>, // by execution record
    rollbacks: map<Id, Rollback>)

  const EMPTY := Database(map[], map[], map[], map[], map[], map[], map[])

  /** The reply to a write: the row is absent, a guard refused, or the new database. */
  datatype Write = Missing | Refused | Done(db: Database)

  function ApprovalsOf(db: Database, action: Id): seq<Approval> {
    if action in db.approvals then db.approvals[action] else []
  }

  predicate Recorded(db: Database, action: Id) {
    exists r :: r in db.executions && db.executions[r].action == action
  }

  /** Some started execution works on the target. */
  predicate TargetBusy(db: Database, target: string) {
    exists r :: r in db.executions && StartedOn(db, r, target)
  }

  predicate StartedOn(db: Database, record: Id, target: string)
    requires record in db.executions
  {
    var execution := db.executions[record];
    execution.status == ExecStarted && execution.action in db.actions && db.actions[execution.action].target == target
  }

  predicate Executable(status: ActionStatus) {
    status == ActionApproved || status == Allowed
  }

  function SetState(db: Database, incident: Id, state: IncidentState): Database
    requires incident in db.incidents
  {
    db.(incidents := db.incidents[incident := db.incidents[incident].(state := state)])
  }

  function SetStatus(db: Database, action: Id, status: ActionStatus): Database
    requires action in db.actions
  {
    db.(actions := db.actions[action := db.actions[action].(status := status)])
  }

  function CompareAndSwapIncidentState(db: Database, incident: Id, expected: IncidentState, next: IncidentState): Write {
    if incident !in db.incidents then Missing
    else if db.incidents[incident].state != expected then Refused
    else Done(SetState(db, incident, next))
  }

  function UpdateCandidateActionStatus(db: Database, action: Id, status: ActionStatus): Write {
    if action !in db.actions then Missing else Done(SetStatus(db, action, status))
  }

  /** Insert new actions; the callers generate fresh ids. */
  function SaveCandidateActions(db: Database, actions: seq<Action>): Database {
    if actions == [] then db
    else
      var action := actions[|actions| - 1];
      var before := SaveCandidateActions(db, actions[..|actions| - 1]);
      before.(actions := before.actions[action.id := action])
  }

  function SavePolicyDecisions(db: Database, decisions: seq<Decision>): Database {
    if decisions == [] then db
    else
      var decision := decisions[|decisions| - 1];
      var before := SavePolicyDecisions(db, decisions[..|decisions| - 1]);
      before.(decisions := before.decisions[decision.action := decision])
  }

  function DecideApproval(db: Database, incident: Id, record: Approval, expectedAction: ActionStatus, nextAction: ActionStatus,
                          expectedIncident: Option<IncidentState>, nextIncident: Option<IncidentState>): Write {
    if record.action !in db.actions || db.actions[record.action].incident != incident then Missing
    else if db.actions[record.action].status != expectedAction then Refused
    else if (expectedIncident.Some? || nextIncident.Some?) && incident !in db.incidents then Missing
    else if expectedIncident.Some? && db.incidents[incident].state != expectedIncident.value then Refused
    else
      var decided := SetStatus(db, record.action, nextAction)
                     .(approvals := db.approvals[record.action := ApprovalsOf(db, record.action) + [record]]);
      Done(if nextIncident.Some? then SetState(decided, incident, nextIncident.value) else decided)
  }

  /** Claim an action for execution: one record per action, one started record per target.
      The incident is moved to ExecutingAction whatever state it was in. */
  function ClaimExecution(db: Database, incident: Id, action: Id, record: Execution): Write {
    if action !in db.actions || db.actions[action].incident != incident then Missing
    else if !Executable(db.actions[action].status) then Refused
    else if TargetBusy(db, db.actions[action].target) then Refused
    else if Recorded(db, action) then Refused
    else if incident !in db.incidents then Missing
    else Done(SetState(SetStatus(db, action, Executing), incident, ExecutingAction)
              .(executions := db.executions[record.id := record]))
  }

  function SaveExecutionRecord(db: Database, record: Execution): Write {
    if record.action !in db.actions then Missing
    else Done(db.(executions := db.executions[record.id := record]))
  }

  function SaveVerificationResult(db: Database, record: Id, verdict: Verdict): Write {
    if record !in db.executions then Missing
    else Done(db.(verdicts := db.verdicts[record := Verification(record, verdict)]))
  }

  function SaveRollbackRecord(db: Database, record: Rollback): Write {
    if record.action !in db.actions then Missing
    else Done(db.(rollbacks := db.rollbacks[record.id := record]))
  }

  /** A claim is granted exactly when the action is executable and unrecorded and its target idle.
      Neither the incident's state nor other actions of the incident play a part, so a claim can
      revive an incident that was already closed. */
  lemma ClaimGrantedIff(db: Database, incident: Id, action: Id, record: Execution)
    requires action in db.actions && db.actions[action].incident == incident && incident in db.incidents
    ensures var reply := ClaimExecution(db, incident, action, record);
            && (reply.Done? <==> && Executable(db.actions[action].status)
                                 && !Recorded(db, action)
                                 && !TargetBusy(db, db.actions[action].target))
            && (reply.Done? ==> && reply.db.incidents[incident].state == ExecutingAction
                                && (record.action == action ==> Recorded(reply.db, action)))
  {
    var reply := ClaimExecution(db, incident, action, record);
    if reply.Done? {
      assert record.id in reply.db.executions && reply.db.executions[record.id] == record;
    }
  }
}
