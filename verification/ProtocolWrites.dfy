/** Every write to the store, made by a thread entitled to it, keeps the invariant and changes
    only what that thread may change. */
module ProtocolWrites {
  import opened Domain
  import opened StateMachine
  import opened Tables
  import opened Protocol
  import opened ProtocolInvariant

  // ----- The log under a growing store

  lemma CallSoundKept(db: Database, db': Database, own: set<Id>, call: Dispatch)
    requires ActionsKept(db, db', own) && DecisionsKept(db, db', own) && ExecutionsKept(db, db', own) && ApprovalsKept(db, db')
    requires CallSound(db, call)
    ensures CallSound(db', call)
  {
    if call.ExecuteCall? {
      assert ActionKept(db, db', own, call.action.id);
    }
  }

  lemma CallsBoundedKept(cfg: Config, db: Database, db': Database, log: seq<Dispatch>, own: set<Id>)
    requires ActionsKept(db, db', own) && ExecutionsKept(db, db', own) && CallsBounded(cfg, db, log)
    requires forall a :: a in own && a in db'.actions && RollbackCalls(log, a) > 0 ==> db'.actions[a].status in {Failed, ActionRolledBack}
    ensures CallsBounded(cfg, db', log)
  {
    forall a | ExecuteCalls(log, a) > 0 ensures Recorded(db', a) {
      RecordedKept(db, db', own, a);
    }
    forall a | RollbackCalls(log, a) > 0 ensures a in db'.actions && db'.actions[a].status in {Failed, ActionRolledBack} {
      assert ActionKept(db, db', own, a);
    }
  }

  /** It is enough to look at the tables: the log follows. */
  lemma WorldKept(cfg: Config, w: World, w': World, own: set<Id>)
    requires WorldInv(cfg, w) && DbInv(w'.db) && w'.log == w.log
    requires ActionsKept(w.db, w'.db, own) && DecisionsKept(w.db, w'.db, own) && ExecutionsKept(w.db, w'.db, own)
    requires ApprovalsKept(w.db, w'.db) && IncidentsMove(w.db, w'.db)
    requires forall a :: a in own && a in w'.db.actions && RollbackCalls(w.log, a) > 0
                         ==> w'.db.actions[a].status in {Failed, ActionRolledBack}
    ensures WorldInv(cfg, w') && Guarantee(w, w', own)
  {
    CallsBoundedKept(cfg, w.db, w'.db, w.log, own);
    forall k | 0 <= k < |w.log| ensures CallSound(w'.db, w.log[k]) {
      CallSoundKept(w.db, w'.db, own, w.log[k]);
    }
  }

  lemma RollbackCalledOnlyAfterFailure(cfg: Config, w: World, a: Id)
    requires WorldInv(cfg, w) && a in w.db.actions
    ensures RollbackCalls(w.log, a) > 0 ==> w.db.actions[a].status in {Failed, ActionRolledBack}
  {
  }

  // ----- Records under a changing store

  /** The executions stay, and no action loses its target. */
  lemma ExclusiveKept(db: Database, db': Database)
    requires Rows(db) && OneRecordPerAction(db) && TargetsExclusive(db) && Rows(db') && db'.executions == db.executions
    requires forall a :: a in db.actions ==> a in db'.actions && db'.actions[a].target == db.actions[a].target
    ensures OneRecordPerAction(db') && TargetsExclusive(db')
  {
    forall r1, r2 | r1 in db'.executions && r2 in db'.executions && SameAction(db', r1, r2) ensures r1 == r2 {
      assert SameAction(db, r1, r2);
    }
    forall r1, r2 | r1 in db'.executions && r2 in db'.executions && Collide(db', r1, r2) ensures r1 == r2 {
      assert Collide(db, r1, r2);
    }
  }

  lemma RecordedOnExecutions(db: Database, db': Database, a: Id)
    requires db'.executions == db.executions
    ensures Recorded(db', a) == Recorded(db, a)
  {
  }

  // ----- Tables the invariant does not read

  ghost predicate SameTables(db: Database, db': Database) {
    && db'.actions == db.actions && db'.decisions == db.decisions
    && db'.approvals == db.approvals && db'.executions == db.executions
  }

  lemma SameTablesInv(db: Database, db': Database)
    requires DbInv(db) && SameTables(db, db')
    ensures DbInv(db')
  {
    ExclusiveKept(db, db');
    forall a | a in db'.actions ensures ApprovalsSoundFor(db', a) && RecordMatchesStatus(db', a) {
      assert ApprovalsSoundFor(db, a) && RecordMatchesStatus(db, a);
      RecordedOnExecutions(db, db', a);
    }
  }

  lemma SideTableSound(cfg: Config, w: World, w': World, own: set<Id>)
    requires WorldInv(cfg, w) && SameTables(w.db, w'.db) && w'.log == w.log && IncidentsMove(w.db, w'.db)
    ensures WorldInv(cfg, w') && Guarantee(w, w', own)
  {
    SameTablesInv(w.db, w'.db);
    assert ActionsKept(w.db, w'.db, own);
    assert ApprovalsKept(w.db, w'.db);
    WorldKept(cfg, w, w', own);
  }

  lemma TransitionSound(cfg: Config, w: World, incident: Id, from: IncidentState, to: IncidentState, own: set<Id>)
    requires WorldInv(cfg, w) && Transition(w.db, incident, from, to).Done?
    ensures var w' := w.(db := Transition(w.db, incident, from, to).db);
            WorldInv(cfg, w') && Guarantee(w, w', own) && SameTables(w.db, w'.db)
  {
    var w' := w.(db := Transition(w.db, incident, from, to).db);
    assert IncidentsMove(w.db, w'.db);
    SideTableSound(cfg, w, w', own);
  }

  // ----- Status writes

  /** May the status of a be rewritten without touching its records? */
  ghost predicate Rewritable(db: Database, a: Id, status: ActionStatus)
    requires a in db.actions
  {
    var current := db.actions[a].status;
    && (current == status || StatusEdge(current, status))
    && Claimed(current) == Claimed(status) && status != ActionApproved && (status == Awaiting ==> current == Proposed)
    && (current == Executing && status != Executing ==>
          forall r :: r in db.executions && db.executions[r].action == a ==> db.executions[r].status != ExecStarted)
  }

  lemma SetStatusRecords(db: Database, a: Id, status: ActionStatus)
    requires DbInv(db) && a in db.actions && Rewritable(db, a, status)
    ensures var db' := SetStatus(db, a, status);
            Rows(db') && OneRecordPerAction(db') && RecordsMatchStatus(db') && StartedMeansExecuting(db') && TargetsExclusive(db')
  {
    var db' := SetStatus(db, a, status);
    assert Rows(db');
    ExclusiveKept(db, db');
    forall b | b in db'.actions ensures RecordMatchesStatus(db', b) {
      assert RecordMatchesStatus(db, b);
      RecordedOnExecutions(db, db', b);
    }
  }

  lemma SetStatusApprovals(db: Database, a: Id, status: ActionStatus)
    requires DbInv(db) && a in db.actions && Rewritable(db, a, status)
    ensures ApprovalsSound(SetStatus(db, a, status))
  {
    var db' := SetStatus(db, a, status);
    assert ApprovalsSoundFor(db, a);
    forall b | b in db'.actions ensures ApprovalsSoundFor(db', b) {
      assert ApprovalsSoundFor(db, b);
    }
  }

  lemma SetStatusSound(cfg: Config, w: World, a: Id, status: ActionStatus, own: set<Id>)
    requires WorldInv(cfg, w) && a in w.db.actions && a in own && Rewritable(w.db, a, status)
    requires RollbackCalls(w.log, a) > 0 ==> status in {Failed, ActionRolledBack}
    ensures var w' := w.(db := SetStatus(w.db, a, status));
            WorldInv(cfg, w') && Guarantee(w, w', own)
  {
    hide OneRecordPerAction, RecordsMatchStatus, StartedMeansExecuting, TargetsExclusive, ApprovalsSound, LogSound;
    var w' := w.(db := SetStatus(w.db, a, status));
    SetStatusRecords(w.db, a, status);
    SetStatusApprovals(w.db, a, status);
    assert ActionsKept(w.db, w'.db, own);
    WorldKept(cfg, w, w', own);
  }

  // ----- Decisions of an operator

  /** An approval or rejection: the waiting row takes the new status with its record. */
  ghost predicate Decides(db: Database, db': Database, record: Approval, next: ActionStatus) {
    && record.action in db.actions && db.actions[record.action].status == Awaiting
    && db'.actions == db.actions[record.action := db.actions[record.action].(status := next)]
    && db'.approvals == db.approvals[record.action := ApprovalsOf(db, record.action) + [record]]
    && db'.decisions == db.decisions && db'.executions == db.executions
  }

  lemma DecidesInv(db: Database, db': Database, record: Approval, next: ActionStatus)
    requires DbInv(db) && Decides(db, db', record, next)
    requires (next == Denied && !record.approved && Nonblank(record.approver)) || (next == ActionApproved && Covers(db, record, db.actions[record.action]))
    ensures DbInv(db')
  {
    DecidesRecords(db, db', record, next);
    DecidesApprovals(db, db', record, next);
  }

  lemma DecidesRecords(db: Database, db': Database, record: Approval, next: ActionStatus)
    requires DbInv(db) && Decides(db, db', record, next) && (next == Denied || next == ActionApproved)
    ensures Rows(db') && OneRecordPerAction(db') && RecordsMatchStatus(db') && StartedMeansExecuting(db') && TargetsExclusive(db')
  {
    ExclusiveKept(db, db');
    forall b | b in db'.actions ensures RecordMatchesStatus(db', b) {
      assert RecordMatchesStatus(db, b);
      RecordedOnExecutions(db, db', b);
    }
  }

  lemma DecidesApprovals(db: Database, db': Database, record: Approval, next: ActionStatus)
    requires DbInv(db) && Decides(db, db', record, next)
    requires (next == Denied && !record.approved && Nonblank(record.approver)) || (next == ActionApproved && Covers(db, record, db.actions[record.action]))
    ensures ApprovalsSound(db')
  {
    assert ApprovalsSoundFor(db, record.action);
    assert ApprovalsOf(db', record.action) == [record];
    forall b | b in db'.actions ensures ApprovalsSoundFor(db', b) {
      assert ApprovalsSoundFor(db, b);
    }
  }

  lemma DecideSound(cfg: Config, w: World, incident: Id, record: Approval, next: ActionStatus,
                    expected: Option<IncidentState>, to: Option<IncidentState>, own: set<Id>)
    requires WorldInv(cfg, w) && record.action in w.db.actions
    requires DecideApproval(w.db, incident, record, Awaiting, next, expected, to).Done?
    requires (next == Denied && !record.approved && Nonblank(record.approver)) || (next == ActionApproved && Covers(w.db, record, w.db.actions[record.action]))
    requires to.Some? ==> expected.Some? && (expected.value == to.value || CanTransition(expected.value, to.value))
    requires record.action !in own
    ensures var w' := w.(db := DecideApproval(w.db, incident, record, Awaiting, next, expected, to).db);
            WorldInv(cfg, w') && Guarantee(w, w', own)
  {
    hide OneRecordPerAction, RecordsMatchStatus, StartedMeansExecuting, TargetsExclusive, ApprovalsSound, LogSound, CallsBounded,
         Covers, Nonblank;
    var w' := w.(db := DecideApproval(w.db, incident, record, Awaiting, next, expected, to).db);
    DecidesInv(w.db, w'.db, record, next);
    assert ActionsKept(w.db, w'.db, own);
    assert ApprovalsKept(w.db, w'.db);
    assert IncidentsMove(w.db, w'.db);
    forall a | a in own && a in w'.db.actions && RollbackCalls(w.log, a) > 0 ensures w'.db.actions[a].status in {Failed, ActionRolledBack} {
      RollbackCalledOnlyAfterFailure(cfg, w, a);
    }
    WorldKept(cfg, w, w', own);
  }

  // ----- Claims

  ghost predicate Claims(db: Database, db': Database, a: Id, record: Execution) {
    && a in db.actions && Executable(db.actions[a].status) && !Recorded(db, a) && !TargetBusy(db, db.actions[a].target)
    && record.action == a && record.id !in db.executions && record.key == ExecuteKey(a) && record.status == ExecStarted
    && db'.executions == db.executions[record.id := record]
    && db'.decisions == db.decisions && db'.approvals == db.approvals
    && db'.actions == db.actions[a := db.actions[a].(status := Executing)]
  }

  lemma ClaimsRecorded(db: Database, db': Database, a: Id, record: Execution, b: Id)
    requires Claims(db, db', a, record)
    ensures Recorded(db', b) <==> Recorded(db, b) || b == a
  {
    if b == a {
      assert record.id in db'.executions && db'.executions[record.id].action == b;
    }
    if Recorded(db, b) {
      var r :| r in db.executions && db.executions[r].action == b;
      assert r in db'.executions && db'.executions[r].action == b;
    }
  }

  lemma ClaimsRows(db: Database, db': Database, a: Id, record: Execution)
    requires DbInv(db) && Claims(db, db', a, record)
    ensures Rows(db') && StartedMeansExecuting(db')
  {
  }

  lemma ClaimsExclusive(db: Database, db': Database, a: Id, record: Execution)
    requires DbInv(db) && Claims(db, db', a, record) && Rows(db')
    ensures OneRecordPerAction(db') && TargetsExclusive(db')
  {
    forall r1, r2 | r1 in db'.executions && r2 in db'.executions && SameAction(db', r1, r2) ensures r1 == r2 {
      if r1 != record.id && r2 != record.id {
        assert SameAction(db, r1, r2);
      }
    }
    forall r1, r2 | r1 in db'.executions && r2 in db'.executions && Collide(db', r1, r2) ensures r1 == r2 {
      if r1 != record.id && r2 != record.id {
        assert Collide(db, r1, r2);
      }
    }
  }

  lemma ClaimsApprovals(db: Database, db': Database, a: Id, record: Execution)
    requires DbInv(db) && Claims(db, db', a, record)
    ensures RecordsMatchStatus(db') && ApprovalsSound(db')
  {
    assert ApprovalsSoundFor(db, a) && RecordMatchesStatus(db, a);
    forall b | b in db'.actions ensures ApprovalsSoundFor(db', b) && RecordMatchesStatus(db', b) {
      assert ApprovalsSoundFor(db, b) && RecordMatchesStatus(db, b);
      ClaimsRecorded(db, db', a, record, b);
    }
  }

  lemma ClaimSound(cfg: Config, w: World, incident: Id, a: Id, record: Execution)
    requires WorldInv(cfg, w)
    requires ClaimExecution(w.db, incident, a, record).Done?
    requires record.action == a && record.id !in w.db.executions && record.key == ExecuteKey(a) && record.status == ExecStarted
    ensures var w' := w.(db := ClaimExecution(w.db, incident, a, record).db);
            && WorldInv(cfg, w') && Guarantee(w, w', {})
            && w'.db.actions == w.db.actions[a := w.db.actions[a].(status := Executing)]
            && w'.db.executions == w.db.executions[record.id := record]
            && w.db.actions[a].status == ActionApproved
            && ExecuteCalls(w.log, a) == 0 && RollbackCalls(w.log, a) == 0
  {
    var db, w' := w.db, w.(db := ClaimExecution(w.db, incident, a, record).db);
    assert Claims(db, w'.db, a, record);
    assert RecordMatchesStatus(db, a);
    ClaimsRows(db, w'.db, a, record);
    ClaimsExclusive(db, w'.db, a, record);
    ClaimsApprovals(db, w'.db, a, record);
    ClaimsRecorded(db, w'.db, a, record, a);
    assert ActionsKept(db, w'.db, {});
    assert ApprovalsKept(db, w'.db);
    forall i | i in db.incidents ensures IncidentMoves(db, w'.db, i) {
      if i == incident {
        assert a in db.actions && db.actions[a].incident == i && !Recorded(db, a) && Recorded(w'.db, a);
      }
    }
    WorldKept(cfg, w, w', {});
  }

  // ----- Ending an execution

  ghost predicate Ends(db: Database, db': Database, record: Execution) {
    && record.id in db.executions && db.executions[record.id].action == record.action
    && record.key == ExecuteKey(record.action) && record.status != ExecStarted
    && db' == db.(executions := db.executions[record.id := record])
  }

  lemma EndsRecorded(db: Database, db': Database, record: Execution, b: Id)
    requires Ends(db, db', record)
    ensures Recorded(db', b) <==> Recorded(db, b)
  {
    if Recorded(db, b) {
      var r :| r in db.executions && db.executions[r].action == b;
      assert r in db'.executions && db'.executions[r].action == b;
    }
  }

  lemma EndsInv(db: Database, db': Database, record: Execution)
    requires DbInv(db) && Ends(db, db', record)
    ensures DbInv(db')
  {
    EndsExclusive(db, db', record);
    forall b | b in db'.actions ensures ApprovalsSoundFor(db', b) && RecordMatchesStatus(db', b) {
      assert ApprovalsSoundFor(db, b) && RecordMatchesStatus(db, b);
      EndsRecorded(db, db', record, b);
    }
  }

  lemma EndsExclusive(db: Database, db': Database, record: Execution)
    requires DbInv(db) && Ends(db, db', record)
    ensures Rows(db') && OneRecordPerAction(db') && StartedMeansExecuting(db') && TargetsExclusive(db')
  {
    forall r1, r2 | r1 in db'.executions && r2 in db'.executions && SameAction(db', r1, r2) ensures r1 == r2 {
      assert SameAction(db, r1, r2);
    }
    forall r1, r2 | r1 in db'.executions && r2 in db'.executions && Collide(db', r1, r2) ensures r1 == r2 {
      assert Collide(db, r1, r2);
    }
  }

  lemma SaveExecutionSound(cfg: Config, w: World, record: Execution, own: set<Id>)
    requires WorldInv(cfg, w) && record.action in own
    requires Ends(w.db, w.db.(executions := w.db.executions[record.id := record]), record)
    ensures var w' := w.(db := w.db.(executions := w.db.executions[record.id := record]));
            WorldInv(cfg, w') && Guarantee(w, w', own)
  {
    var w' := w.(db := w.db.(executions := w.db.executions[record.id := record]));
    EndsInv(w.db, w'.db, record);
    assert ActionsKept(w.db, w'.db, own);
    assert ApprovalsKept(w.db, w'.db);
    WorldKept(cfg, w, w', own);
  }

  // ----- Saving policy decisions and new actions

  lemma {:induction false} SaveDecisionsFrame(db: Database, decisions: seq<Decision>)
    ensures var db' := SavePolicyDecisions(db, decisions);
            && db' == db.(decisions := db'.decisions)
            && (forall a :: a in db'.decisions <==> a in db.decisions || a in DecidedIds(decisions))
            && (forall a :: a in db.decisions && a !in DecidedIds(decisions) ==> db'.decisions[a] == db.decisions[a])
            && (forall a :: a in DecidedIds(decisions) ==> db'.decisions[a] in decisions)
  {
    if decisions != [] {
      var before, last := decisions[..|decisions| - 1], decisions[|decisions| - 1];
      SaveDecisionsFrame(db, before);
      assert decisions == before + [last];
      DecidedIdsSnoc(before, last);
    }
  }

  lemma DecidedIdsSnoc(before: seq<Decision>, last: Decision)
    ensures DecidedIds(before + [last]) == DecidedIds(before) + {last.action}
  {
    var decisions := before + [last];
    forall a | a in DecidedIds(before) + {last.action} ensures a in DecidedIds(decisions) {
      if a in DecidedIds(before) {
        var k :| 0 <= k < |before| && before[k].action == a;
        assert decisions[k].action == a;
      } else {
        assert decisions[|before|].action == a;
      }
    }
  }

  lemma IdsSnoc(before: seq<Action>, last: Action)
    ensures Ids(before + [last]) == Ids(before) + {last.id}
  {
    var actions := before + [last];
    forall a | a in Ids(before) + {last.id} ensures a in Ids(actions) {
      if a in Ids(before) {
        var k :| 0 <= k < |before| && before[k].id == a;
        assert actions[k].id == a;
      } else {
        assert actions[|before|].id == a;
      }
    }
  }

  /** New decision rows for undecided actions. */
  ghost predicate Records(db: Database, db': Database, own: set<Id>) {
    && db' == db.(decisions := db'.decisions)
    && DecisionsKept(db, db', own)
    && (forall a :: a in db'.decisions ==> a in db.actions && db'.decisions[a].kind != Allow)
  }

  lemma RecordsInv(db: Database, db': Database, own: set<Id>)
    requires DbInv(db) && Records(db, db', own)
    ensures DbInv(db')
  {
    ExclusiveKept(db, db');
    forall a | a in db'.actions ensures ApprovalsSoundFor(db', a) && RecordMatchesStatus(db', a) {
      assert ApprovalsSoundFor(db, a) && RecordMatchesStatus(db, a);
      RecordedOnExecutions(db, db', a);
    }
  }

  lemma SaveDecisionsRecords(db: Database, decisions: seq<Decision>, own: set<Id>)
    requires Rows(db) && EvaluatingInv(db, [], decisions) && DecidedIds(decisions) <= own
    ensures Records(db, SavePolicyDecisions(db, decisions), own)
  {
    SaveDecisionsFrame(db, decisions);
    forall a | a in DecidedIds(decisions)
      ensures a !in db.decisions && a in db.actions && SavePolicyDecisions(db, decisions).decisions[a].kind != Allow
    {
      var k :| 0 <= k < |decisions| && decisions[k].action == a;
      assert decisions[k].action !in db.decisions;
    }
  }

  lemma SaveDecisionsSound(cfg: Config, w: World, decisions: seq<Decision>, own: set<Id>)
    requires WorldInv(cfg, w) && EvaluatingInv(w.db, [], decisions) && DecidedIds(decisions) <= own
    ensures var w' := w.(db := SavePolicyDecisions(w.db, decisions));
            WorldInv(cfg, w') && Guarantee(w, w', own)
  {
    var w' := w.(db := SavePolicyDecisions(w.db, decisions));
    SaveDecisionsRecords(w.db, decisions, own);
    RecordsInv(w.db, w'.db, own);
    assert ActionsKept(w.db, w'.db, own);
    assert ApprovalsKept(w.db, w'.db);
    forall a | a in own && a in w'.db.actions && RollbackCalls(w.log, a) > 0 ensures w'.db.actions[a].status in {Failed, ActionRolledBack} {
      RollbackCalledOnlyAfterFailure(cfg, w, a);
    }
    WorldKept(cfg, w, w', own);
  }

  lemma {:induction false} SaveActionsFrame(db: Database, actions: seq<Action>)
    requires forall j, k :: 0 <= j < k < |actions| ==> actions[j].id != actions[k].id
    ensures var db' := SaveCandidateActions(db, actions);
            && db' == db.(actions := db'.actions)
            && (forall a :: a in db'.actions <==> a in db.actions || a in Ids(actions))
            && (forall a :: a in db.actions && a !in Ids(actions) ==> db'.actions[a] == db.actions[a])
            && (forall k :: 0 <= k < |actions| ==> actions[k].id in db'.actions && db'.actions[actions[k].id] == actions[k])
  {
    if actions != [] {
      var before, last := actions[..|actions| - 1], actions[|actions| - 1];
      forall j, k | 0 <= j < k < |before| ensures before[j].id != before[k].id {
        assert actions[j].id != actions[k].id;
      }
      SaveActionsFrame(db, before);
      assert actions == before + [last];
      IdsSnoc(before, last);
      var db' := SaveCandidateActions(db, actions);
      forall k | 0 <= k < |actions| ensures actions[k].id in db'.actions && db'.actions[actions[k].id] == actions[k] {
        if k < |before| {
          assert before[k] == actions[k] && actions[k].id != actions[|actions| - 1].id;
        }
      }
    }
  }

  /** New rows under ids not used before. */
  ghost predicate Adds(db: Database, db': Database) {
    && db' == db.(actions := db'.actions)
    && (forall a :: a in db.actions ==> a in db'.actions && db'.actions[a] == db.actions[a])
    && (forall a :: a in db'.actions && a !in db.actions ==> db'.actions[a].id == a && db'.actions[a].status in {Proposed, Invalid})
  }

  lemma AddsInv(db: Database, db': Database)
    requires DbInv(db) && Adds(db, db')
    ensures DbInv(db')
  {
    ExclusiveKept(db, db');
    forall a | a in db'.actions ensures ApprovalsSoundFor(db', a) && RecordMatchesStatus(db', a) {
      RecordedOnExecutions(db, db', a);
      if a in db.actions {
        assert ApprovalsSoundFor(db, a) && RecordMatchesStatus(db, a);
      }
    }
  }

  lemma SaveActionsSound(cfg: Config, w: World, incident: Id, actions: seq<Action>)
    requires WorldInv(cfg, w) && FreshActions(w.db, incident, actions)
    ensures var w' := w.(db := SaveCandidateActions(w.db, actions));
            && WorldInv(cfg, w') && Guarantee(w, w', {}) && ProposedInv(w'.db, actions)
  {
    var db, w' := w.db, w.(db := SaveCandidateActions(w.db, actions));
    SaveActionsFrame(db, actions);
    forall a | a in Ids(actions) ensures a !in db.actions && w'.db.actions[a].id == a && w'.db.actions[a].status in {Proposed, Invalid} {
      var k :| 0 <= k < |actions| && actions[k].id == a;
      assert actions[k].id !in db.actions;
    }
    AddsInv(db, w'.db);
    assert ActionsKept(db, w'.db, {});
    assert ApprovalsKept(db, w'.db);
    WorldKept(cfg, w, w', {});
  }
}
