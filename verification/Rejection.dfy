/** RejectAction stores the denial and then refreshes the incident, which can fail. */
module Rejection {
  import opened Domain
  import opened StateMachine
  import opened Tables
  import opened Protocol
  import opened Completion

  /** Another action of the incident is in one of the statuses. */
  predicate OtherIn(db: Database, action: Action, statuses: set<ActionStatus>) {
    exists a :: a in db.actions && a != action.id && InStatus(db, a, action.incident, statuses)
  }

  predicate InStatus(db: Database, a: Id, incident: Id, statuses: set<ActionStatus>)
    requires a in db.actions
  {
    db.actions[a].incident == incident && db.actions[a].status in statuses
  }

  /** What a caller can look up before rejecting the action: the incident's state, and whether other
      actions keep it open. */
  predicate Refreshable(db: Database, action: Action) {
    && action.incident in db.incidents
    && match db.incidents[action.incident].state
       case ActionProposed => true
       case Triaging => !OtherIn(db, action, {Awaiting, ActionApproved, Allowed})
       case AwaitingApproval => OtherIn(db, action, {Awaiting, ActionApproved, Allowed})
       case Approved => OtherIn(db, action, {ActionApproved, Allowed})
       case _ => false
  }

  /** The action is denied and nothing else. */
  function Denying(db: Database, action: Action, record: Approval): Database
    requires action.id in db.actions
  {
    SetStatus(db, action.id, Denied).(approvals := db.approvals[action.id := ApprovalsOf(db, action.id) + [record]])
  }

  /** The target of the refresh, told from the other actions. */
  lemma TargetAfterDenial(db: Database, action: Action, record: Approval)
    requires action.id in db.actions && db.actions[action.id] == action
    ensures RefreshTarget(Denying(db, action, record), action.incident)
            == if OtherIn(db, action, {ActionApproved, Allowed}) then Approved
               else if OtherIn(db, action, {Awaiting}) then AwaitingApproval
               else ActionProposed
  {
    var db', i := Denying(db, action, record), action.incident;
    forall status | status in {Awaiting, ActionApproved, Allowed}
      ensures (exists a :: a in db'.actions && OpenAs(db', a, i, status)) <==> OtherIn(db, action, {status})
    {
      if a :| a in db'.actions && OpenAs(db', a, i, status) {
        assert InStatus(db, a, i, {status});
      }
      if OtherIn(db, action, {status}) {
        var a :| a in db.actions && a != action.id && InStatus(db, a, i, {status});
        assert OpenAs(db', a, i, status);
      }
    }
    OtherUnion(db, action, {ActionApproved}, {Allowed}, {ActionApproved, Allowed});
  }

  lemma OtherUnion(db: Database, action: Action, x: set<ActionStatus>, y: set<ActionStatus>, both: set<ActionStatus>)
    requires both == x + y
    ensures OtherIn(db, action, both) <==> OtherIn(db, action, x) || OtherIn(db, action, y)
  {
    if OtherIn(db, action, both) {
      var a :| a in db.actions && a != action.id && InStatus(db, a, action.incident, both);
      assert InStatus(db, a, action.incident, x) || InStatus(db, a, action.incident, y);
    }
    if OtherIn(db, action, x) {
      var a :| a in db.actions && a != action.id && InStatus(db, a, action.incident, x);
      assert InStatus(db, a, action.incident, both);
    }
    if OtherIn(db, action, y) {
      var a :| a in db.actions && a != action.id && InStatus(db, a, action.incident, y);
      assert InStatus(db, a, action.incident, both);
    }
  }

  lemma DenialSaved(db: Database, action: Action, record: Approval)
    requires action.id in db.actions && db.actions[action.id] == action && action.status == Awaiting
    requires action.incident in db.incidents && record.action == action.id
    ensures DecideApproval(db, action.incident, record, Awaiting, Denied, None, None) == Done(Denying(db, action, record))
  {
  }

  /** Rejecting an awaiting action, alone: the denial and its record are stored whenever the incident
      exists, and the call returns without an error if and only if the incident is Refreshable. */
  lemma RejectionSucceedsIff(cfg: Config, w: World, action: Action, approver: string, oracle: Oracle)
    requires action.id in w.db.actions && w.db.actions[action.id] == action && action.status == Awaiting
    ensures var ending := Finish(cfg, w, RejectRead(action, approver), oracle);
            var db := ending.world.db;
            && (ending.ok <==> Refreshable(w.db, action))
            && (if action.incident in w.db.incidents
                then && db.actions == w.db.actions[action.id := action.(status := Denied)]
                     && ApprovalsOf(db, action.id) == ApprovalsOf(w.db, action.id) + [RejectionRecord(action, approver, w.now)]
                else ending.world == w)
  {
    hide Finish, RejectionRecord;
    var i := action.incident;
    AtRejectRead(cfg, w, action, approver, oracle);
    if i in w.db.incidents {
      var record := RejectionRecord(action, approver, w.now);
      assert record.action == action.id by {
        RecordOf(action, approver, w.now);
      }
      DenialSaved(w.db, action, record);
      hide DecideApproval, OtherIn, RefreshTarget;
      var from, denied := w.db.incidents[i].state, w.(db := Denying(w.db, action, record));
      AtRefreshing(cfg, denied, i, from, oracle);
      TargetAfterDenial(w.db, action, record);
      AtMoving(cfg, denied, i, from, RefreshTarget(denied.db, i), oracle);
      OtherUnion(w.db, action, {ActionApproved, Allowed}, {Awaiting}, {Awaiting, ActionApproved, Allowed});
    }
  }

  lemma RecordOf(action: Action, approver: string, now: int)
    ensures RejectionRecord(action, approver, now).action == action.id
  {
  }

  /** The usual failure: the only action of an incident that awaits approval. The denial is stored, the
      incident still awaits approval, and the caller gets an error. */
  lemma RejectingLastAwaitingFails(cfg: Config, approver: string, oracle: Oracle)
    ensures var action := Action(1, 1, "restart", "queue", "{}", RISK_LOW, [1], Awaiting, 0);
            var db := EMPTY.(incidents := map[1 := Incident(1, "alert", "prod", AwaitingApproval, 0)], actions := map[1 := action]);
            var ending := Finish(cfg, World(db, [], 0, false), RejectRead(action, approver), oracle);
            && !ending.ok
            && 1 in ending.world.db.actions && ending.world.db.actions[1].status == Denied
  {
    hide Finish;
    var action := Action(1, 1, "restart", "queue", "{}", RISK_LOW, [1], Awaiting, 0);
    var db := EMPTY.(incidents := map[1 := Incident(1, "alert", "prod", AwaitingApproval, 0)], actions := map[1 := action]);
    RejectionSucceedsIff(cfg, World(db, [], 0, false), action, approver, oracle);
  }

  /** A later failure: another action was approved and is being executed, so the incident cannot be
      refreshed even though a third action still awaits approval. */
  lemma RejectingWhileExecutingFails(cfg: Config, approver: string, oracle: Oracle)
    ensures var action := Action(2, 1, "restart", "queue", "{}", RISK_LOW, [1], Awaiting, 0);
            var db := EMPTY.(incidents := map[1 := Incident(1, "alert", "prod", ExecutingAction, 0)],
                             actions := map[1 := action.(id := 1, status := Executing), 2 := action, 3 := action.(id := 3)]);
            && OtherIn(db, action, {Awaiting})
            && !Finish(cfg, World(db, [], 0, false), RejectRead(action, approver), oracle).ok
  {
    hide Finish;
    var action := Action(2, 1, "restart", "queue", "{}", RISK_LOW, [1], Awaiting, 0);
    var db := EMPTY.(incidents := map[1 := Incident(1, "alert", "prod", ExecutingAction, 0)],
                     actions := map[1 := action.(id := 1, status := Executing), 2 := action, 3 := action.(id := 3)]);
    RejectionSucceedsIff(cfg, World(db, [], 0, false), action, approver, oracle);
    assert 3 in db.actions && InStatus(db, 3, 1, {Awaiting});
  }
}
