/** The execution, verification and rollback services over the in-memory store. Every method is
    proved to leave exactly the world, and the error or not, that the protocol's thread for the
    same call leaves when it runs alone. */
module RemediationService {
  import opened Domain
  import opened StateMachine
  import opened Protocol
  import opened ProtocolInvariant
  import opened Completion
  import opened EvidenceItems
  import opened Recovery
  import Tables
  import Digest
  import A = AdmissionOutcomes
  import M = MemoryStore
  import S = SettlementOutcomes

  datatype Reply = Error | Ran(status: ExecutionStatus)

  /** The wanted rows, each once, are as many as their ids. */
  lemma {:induction false} ListedAttempts(rows: seq<Execution>, ids: set<Id>)
    requires M.DistinctKeys(rows, M.ExecutionId)
    requires forall r :: r in ids <==> exists k :: 0 <= k < |rows| && rows[k].id == r
    ensures |ids| == |rows|
  {
    if rows != [] {
      var last := rows[|rows| - 1];
      var before := rows[..|rows| - 1];
      assert last.id in ids;
      forall r | r in ids - {last.id} ensures exists k :: 0 <= k < |before| && before[k].id == r {
        var k :| 0 <= k < |rows| && rows[k].id == r;
        assert before[k].id == r;
      }
      forall k | 0 <= k < |before| ensures before[k].id in ids - {last.id} {
        assert before[k] == rows[k] && rows[k].id in ids && M.ExecutionId(rows[k]) != M.ExecutionId(rows[|rows| - 1]);
      }
      ListedAttempts(before, ids - {last.id});
    } else {
      assert forall r :: r !in ids;
      assert ids == {};
    }
  }

  // ----- Evidence

  /** A map built item by item holds the last item of every id. */
  method IndexById(items: seq<EvidenceItem>) returns (byId: map<Id, EvidenceItem>)
    ensures forall id, k :: LastWithId(items, |items|, k, id) ==> id in byId && byId[id] == items[k]
    ensures forall id :: id in byId ==> exists k :: LastWithId(items, |items|, k, id)
  {
    byId := map[];
    var n := 0;
    while n < |items|
      invariant 0 <= n <= |items|
      invariant forall id, k :: LastWithId(items, n, k, id) ==> id in byId && byId[id] == items[k]
      invariant forall id :: id in byId ==> exists k :: LastWithId(items, n, k, id)
    {
      ghost var m := n + 1;
      byId := byId[items[n].id := items[n]];
      forall id, k | LastWithId(items, m, k, id) ensures id in byId && byId[id] == items[k] {
        assert k < n ==> LastWithId(items, n, k, id);
      }
      forall id | id in byId ensures exists k :: LastWithId(items, m, k, id) {
        if id == items[n].id {
          assert LastWithId(items, m, n, id);
        } else {
          var k :| LastWithId(items, n, k, id);
          assert LastWithId(items, m, k, id);
        }
      }
      n := n + 1;
    }
  }

  /** validateEvidenceFreshness. */
  method ValidateEvidenceFreshness(evidence: Evidence, now: int) returns (ok: bool)
    ensures ok <==> Current(evidence, now)
  {
    if evidence.references == [] {
      return false;
    }
    var byId := IndexById(evidence.items);
    var n := 0;
    while n < |evidence.references|
      invariant 0 <= n <= |evidence.references|
      invariant forall k :: 0 <= k < n ==> Supported(evidence.items, evidence.references[k], evidence.maxAge, now)
    {
      var reference := evidence.references[n];
      if reference !in byId || !Usable(byId[reference], evidence.maxAge, now) {
        assert !Supported(evidence.items, reference, evidence.maxAge, now) by {
          assert forall k :: LastWithId(evidence.items, |evidence.items|, k, reference) ==> !Usable(evidence.items[k], evidence.maxAge, now);
        }
        return false;
      }
      n := n + 1;
    }
    ok := true;
  }

  class Service {
    const cfg: Config
    const store: M.MemoryStore
    const oracle: Oracle // the world outside
    var calls: seq<Dispatch> // what the adapter was asked to do
    var now: int
    var killed: bool

    constructor (cfg: Config, store: M.MemoryStore, oracle: Oracle, now: int)
      requires store.Valid()
      ensures Valid() && this.cfg == cfg && this.store == store && this.oracle == oracle
      ensures Now() == World(store.db, [], now, false)
    {
      this.cfg, this.store, this.oracle, this.now := cfg, store, oracle, now;
      calls, killed := [], false;
    }

    ghost predicate Valid()
      reads this, store
    {
      store.Valid()
    }

    ghost function Now(): World
      reads this, store
    {
      World(store.db, calls, now, killed)
    }

    // ----- Incident states

    /** transitionIncidentState with the caller's snapshot of the state. */
    method TransitionIncidentState(incident: Id, from: IncidentState, to: IncidentState) returns (ok: bool)
      requires Valid()
      modifies store
      ensures Valid()
      ensures var write := Transition(old(store.db), incident, from, to);
              ok == write.Done? && store.db == if write.Done? then write.db else old(store.db)
      ensures store.db.rollbacks == old(store.db).rollbacks && store.db.executions == old(store.db).executions
      ensures store.db.verdicts == old(store.db).verdicts
    {
      hide M.MemoryStore.Valid;
      if from == to {
        return true;
      }
      if !CanTransition(from, to) {
        return false;
      }
      var reply := store.CompareAndSwapIncidentState(incident, from, to);
      return reply == M.Yes;
    }

    /** The last step of a call. */
    method Move(incident: Id, from: IncidentState, to: IncidentState) returns (ok: bool)
      requires Valid()
      modifies store
      ensures Valid()
      ensures Ending(Now(), ok) == Finish(cfg, old(Now()), Moving(incident, from, to), oracle)
      ensures store.db.rollbacks == old(store.db).rollbacks && store.db.executions == old(store.db).executions
    {
      hide Finish, Transition, M.MemoryStore.Valid;
      AtMoving(cfg, Now(), incident, from, to, oracle);
      ok := TransitionIncidentState(incident, from, to);
    }

    // ----- Rollback

    /** The operation that undoes the action, if there is one that may be dispatched. */
    method RollbackPlan(action: Action) returns (key: Option<string>)
      requires cfg.rollsBack
      ensures key.Some? <==> CanRollBack(cfg, action)
      ensures key.Some? <==> S.Undoable(cfg, action)
      ensures key.Some? ==> key.value == cfg.catalog[action.actionType].rollbackKey
    {
      if action.actionType !in cfg.catalog {
        return None;
      }
      var definition := cfg.catalog[action.actionType];
      if !definition.supportsRollback || definition.rollbackKey == "" {
        return None;
      }
      if definition.rollbackKey !in cfg.catalog || !cfg.catalog[definition.rollbackKey].executable {
        return None;
      }
      return Some(definition.rollbackKey);
    }

    /** RollbackAction: a started record, one call of the adapter, the final record, the action's status. */
    method RollbackAction(action: Action) returns (ok: bool)
      requires Valid() && cfg.rollsBack && oracle.rollbackId(action.id) !in store.db.rollbacks
      modifies this`calls, store
      ensures Valid()
      ensures !S.Undoable(cfg, action) || action.id !in old(store.db).actions ==> !ok && Now() == old(Now())
      ensures calls == old(calls) + if S.Undoable(cfg, action) && action.id in old(store.db).actions && oracle.rollbackStore(action.id) != StartFault
                                    then [RollbackCall(action.id)] else []
      ensures ok <==> S.Undoable(cfg, action) && action.id in old(store.db).actions
                      && oracle.rollback(action.id) == AdapterOk && oracle.rollbackStore(action.id) == NoFault
      ensures HasRollbackPlan(cfg, action) ==>
                Finish(cfg, old(Now()), Compensating(action), oracle)
                == Finish(cfg, Now(), Moving(action.incident, FailedRemediation, if ok then RolledBack else Escalated), oracle)
      ensures store.db.rollbacks.Keys <= old(store.db).rollbacks.Keys + {oracle.rollbackId(action.id)}
      ensures store.db.executions == old(store.db).executions && store.db.verdicts == old(store.db).verdicts
    {
      hide Finish, HasRollbackPlan, CanRollBack, S.Undoable, M.MemoryStore.Valid, Tables.SaveRollbackRecord, StartedRollback;
      var key := RollbackPlan(action);
      assert calls + [] == calls;
      AtCompensating(cfg, Now(), action, oracle);
      if key.None? {
        return false;
      }
      var record := StartRollback(action, key.value);
      if record.None? {
        return false;
      }
      ok := CompleteRollback(action, record.value);
    }

    method StartRollback(action: Action, key: string) returns (record: Option<Rollback>)
      requires Valid() && oracle.rollbackId(action.id) !in store.db.rollbacks
      modifies store
      ensures Valid()
      ensures var write := Faulty(Tables.SaveRollbackRecord(old(store.db), StartedRollback(action, key, oracle)),
                                  oracle.rollbackStore(action.id) == StartFault);
              && (record.Some? <==> write.Done?)
              && store.db == if write.Done? then write.db else old(store.db)
      ensures record.Some? <==> action.id in old(store.db).actions && oracle.rollbackStore(action.id) != StartFault
      ensures store.db.actions == old(store.db).actions
      ensures record.Some? ==>
                && record.value == StartedRollback(action, key, oracle) && record.value.action == action.id
                && store.db.rollbacks == old(store.db).rollbacks[oracle.rollbackId(action.id) := record.value]
                && record.value.id == oracle.rollbackId(action.id)
      ensures store.db.executions == old(store.db).executions && store.db.verdicts == old(store.db).verdicts
    {
      hide M.MemoryStore.Valid;
      var started := StartedRollback(action, key, oracle);
      if oracle.rollbackStore(action.id) == StartFault {
        return None; // the store fails
      }
      var saved := store.SaveRollbackRecord(started);
      return if saved == M.Yes then Some(started) else None;
    }

    /** From the started record to the end. */
    method CompleteRollback(action: Action, started: Rollback) returns (ok: bool)
      requires Valid() && started.action == action.id
      requires started.id in store.db.rollbacks && store.db.rollbacks[started.id] == started
      modifies this`calls, store
      ensures Valid()
      ensures Finish(cfg, old(Now()), RollbackSaved(action, started), oracle)
              == Finish(cfg, Now(), Moving(action.incident, FailedRemediation, if ok then RolledBack else Escalated), oracle)
      ensures calls == old(calls) + [RollbackCall(action.id)]
      ensures ok <==> action.id in old(store.db).actions && oracle.rollback(action.id) == AdapterOk
                      && oracle.rollbackStore(action.id) !in {EndFault, MarkFault}
      ensures store.db.rollbacks.Keys == old(store.db).rollbacks.Keys && store.db.executions == old(store.db).executions
      ensures store.db.verdicts == old(store.db).verdicts
    {
      hide Finish, M.MemoryStore.Valid;
      calls := calls + [RollbackCall(action.id)];
      var answer := oracle.rollback(action.id);
      var record := AnsweredRollback(started, answer);
      RollbackCalled(cfg, old(Now()), action, started, oracle);
      AtRollbackDone(cfg, Now(), action, record, oracle);
      if oracle.rollbackStore(action.id) == EndFault {
        return false; // the store fails
      }
      var saved := store.SaveRollbackRecord(record);
      if saved != M.Yes || answer != AdapterOk {
        return false;
      }
      ok := MarkRolledBack(action);
    }

    method MarkRolledBack(action: Action) returns (ok: bool)
      requires Valid()
      modifies store
      ensures Valid()
      ensures ok <==> action.id in old(store.db).actions && oracle.rollbackStore(action.id) != MarkFault
      ensures Finish(cfg, old(Now()), RollbackMarking(action), oracle)
              == Finish(cfg, Now(), Moving(action.incident, FailedRemediation, if ok then RolledBack else Escalated), oracle)
      ensures store.db.rollbacks == old(store.db).rollbacks && store.db.executions == old(store.db).executions
      ensures store.db.verdicts == old(store.db).verdicts
    {
      hide Finish, M.MemoryStore.Valid;
      AtRollbackMarking(cfg, Now(), action, oracle);
      if oracle.rollbackStore(action.id) == MarkFault {
        return false; // the store fails
      }
      var marked := store.UpdateCandidateActionStatus(action.id, ActionRolledBack);
      return marked == M.Yes;
    }

    // ----- Verification

    /** The execution of the action succeeded, and its incident is verifying it. */
    ghost predicate Verifiable(action: Action, execution: Execution)
      reads this, store
    {
      && action.id in store.db.actions && action.incident in store.db.incidents && execution.id in store.db.executions
      && store.db.actions[action.id].status == Succeeded && store.db.incidents[action.incident].state == VerifyingAction
    }

    /** VerifyExecution: the verdict is saved, then the incident is resolved, rolled back or escalated. */
    method VerifyExecution(action: Action, execution: Execution) returns (ok: bool)
      requires Valid() && oracle.rollbackId(action.id) !in store.db.rollbacks
      modifies this`calls, store
      ensures Valid()
      ensures Ending(Now(), ok) == Finish(cfg, old(Now()), Verifying(action, execution), oracle)
      ensures old(Verifiable(action, execution)) ==> S.Verified(cfg, old(Now()), action, execution, oracle, Ending(Now(), ok))
      ensures store.db.rollbacks.Keys <= old(store.db).rollbacks.Keys + {oracle.rollbackId(action.id)}
      ensures store.db.executions == old(store.db).executions
    {
      hide Finish, M.MemoryStore.Valid, S.Verified;
      if Verifiable(action, execution) {
        S.VerificationLeaves(cfg, Now(), action, execution, oracle);
      }
      AtVerifying(cfg, Now(), action, execution, oracle);
      var incident := store.GetIncident(action.incident);
      if incident.None? {
        return false;
      }
      var verdict, from := VerdictOf(cfg, oracle, action.id), incident.value.state;
      AtJudged(cfg, Now(), action, execution, verdict, from, oracle);
      var saved := store.SaveVerificationResult(execution.id, verdict);
      if saved != M.Yes {
        return false;
      }
      ok := Conclude(action, execution, verdict, from);
    }

    /** The verdict on the execution is stored. */
    ghost predicate Recorded(execution: Id, verdict: Verdict)
      reads this, store
    {
      execution in store.db.executions && execution in store.db.verdicts && store.db.verdicts[execution] == Verification(execution, verdict)
    }

    method Conclude(action: Action, execution: Execution, verdict: Verdict, from: IncidentState) returns (ok: bool)
      requires Valid() && Recorded(execution.id, verdict) && oracle.rollbackId(action.id) !in store.db.rollbacks
      modifies this`calls, store
      ensures Valid()
      ensures Ending(Now(), ok) == Finish(cfg, old(Now()), Concluding(action, execution, verdict, from), oracle)
      ensures store.db.rollbacks.Keys <= old(store.db).rollbacks.Keys + {oracle.rollbackId(action.id)}
      ensures store.db.executions == old(store.db).executions
    {
      hide Finish, M.MemoryStore.Valid;
      AtConcluding(cfg, Now(), action, execution, verdict, from, oracle);
      if verdict == Success {
        ok := Move(action.incident, from, Resolved);
        return;
      }
      var marked := store.UpdateCandidateActionStatus(action.id, Failed);
      if marked != M.Yes {
        return false;
      }
      ok := Unwind(action, execution, verdict, from);
    }

    /** What a verification that was not a success does to the incident. */
    method Unwind(action: Action, execution: Execution, verdict: Verdict, from: IncidentState) returns (ok: bool)
      requires Valid() && Recorded(execution.id, verdict) && oracle.rollbackId(action.id) !in store.db.rollbacks && verdict != Success
      modifies this`calls, store
      ensures Valid()
      ensures Ending(Now(), ok) == Finish(cfg, old(Now()), Unwinding(action, execution, verdict, from), oracle)
      ensures store.db.rollbacks.Keys <= old(store.db).rollbacks.Keys + {oracle.rollbackId(action.id)}
      ensures store.db.executions == old(store.db).executions
    {
      hide Finish, Transition, M.MemoryStore.Valid;
      AtUnwinding(cfg, Now(), action, execution, verdict, from, oracle);
      if verdict == Inconclusive {
        ok := Move(action.incident, from, Escalated);
        return;
      }
      ok := TransitionIncidentState(action.incident, from, FailedRemediation);
      if !ok {
        return;
      }
      if HasRollbackPlan(cfg, action) {
        var undone := RollbackAction(action);
        UpdateVerificationResult(execution.id, verdict);
        ok := Move(action.incident, FailedRemediation, if undone then RolledBack else Escalated);
      } else {
        ok := Move(action.incident, FailedRemediation, Escalated);
      }
    }

    /** updateVerificationResult: the result is saved once more after a rollback, with another evidence
        text; the row says the same. */
    method UpdateVerificationResult(execution: Id, verdict: Verdict)
      requires Valid() && Recorded(execution, verdict)
      modifies store
      ensures Valid() && Now() == old(Now())
    {
      hide M.MemoryStore.Valid;
      var saved := store.SaveVerificationResult(execution, verdict);
      assert old(store.db).verdicts[execution := Verification(execution, verdict)] == old(store.db).verdicts;
    }

    // ----- What follows the answer of the adapter

    /** The final record, the action's status, the incident's state, and the verification of a success. */
    method Settle(action: Action, execution: Execution, from: IncidentState) returns (ok: bool)
      requires Valid() && execution.action == action.id && oracle.rollbackId(action.id) !in store.db.rollbacks
      requires execution.id in store.db.executions ==> store.db.executions[execution.id].action == action.id
      modifies this`calls, store
      ensures Valid()
      ensures Ending(Now(), ok) == Finish(cfg, old(Now()), Saving(action, execution, from), oracle)
      ensures store.db.rollbacks.Keys <= old(store.db).rollbacks.Keys + {oracle.rollbackId(action.id)}
      ensures store.db.executions == old(store.db).executions[execution.id := execution]
              || (!ok && store.db.executions == old(store.db).executions)
    {
      hide Finish, Transition, IncidentStateAfter, ActionStatusAfter, M.MemoryStore.Valid;
      AtSaving(cfg, Now(), action, execution, from, oracle);
      var saved := store.SaveExecutionRecord(execution);
      if saved != M.Yes {
        return false;
      }
      AtMarking(cfg, Now(), action, execution, from, oracle);
      var marked := store.UpdateCandidateActionStatus(action.id, ActionStatusAfter(execution.status));
      if marked != M.Yes {
        return false;
      }
      AtSettling(cfg, Now(), action, execution, from, oracle);
      ok := TransitionIncidentState(action.incident, from, IncidentStateAfter(execution.status));
      if ok && execution.status == ExecSucceeded && cfg.verifies {
        ok := VerifyExecution(action, execution);
      }
    }

    // ----- Recovery

    /** Generated rollback ids are new and never repeat. */
    ghost predicate RollbackIdsNew()
      reads this, store
    {
      && (forall a :: oracle.rollbackId(a) !in store.db.rollbacks)
      && (forall a, b :: oracle.rollbackId(a) == oracle.rollbackId(b) ==> a == b)
    }

    method RecoverExecution(record: Execution) returns (ok: bool)
      requires Valid() && oracle.rollbackId(record.action) !in store.db.rollbacks
      requires record.id in store.db.executions && store.db.executions[record.id].action == record.action
      modifies this`calls, store
      ensures Valid()
      ensures Ending(Now(), ok) == RecoverOne(cfg, old(Now()), record, oracle)
      ensures store.db.rollbacks.Keys <= old(store.db).rollbacks.Keys + {oracle.rollbackId(record.action)}
      ensures forall r :: r in old(store.db).executions ==>
                r in store.db.executions && store.db.executions[r].action == old(store.db).executions[r].action
    {
      hide Finish, M.MemoryStore.Valid;
      var action := store.GetCandidateAction(record.action);
      if action.None? {
        return false;
      }
      var incident := store.GetIncident(action.value.incident);
      if incident.None? {
        return false;
      }
      ok := Settle(action.value, Reconciled(record, oracle, now), incident.value.state);
    }

    /** RecoverStartedExecutions: every execution found started is reconciled, never dispatched again;
        the first error ends the call. */
    method RecoverStartedExecutions() returns (count: nat, ok: bool, ghost todo: seq<Execution>)
      requires Valid() && RollbackIdsNew() && OneRecordPerAction(store.db)
      modifies this`calls, store
      ensures Valid()
      ensures StartedExecutions(old(store.db), todo)
      ensures Ending(Now(), ok) == RecoverAll(cfg, old(Now()), todo, oracle)
      ensures count == if ok then |todo| else 0
    {
      hide RecoverOne, M.MemoryStore.Valid, StartedExecutions;
      var records := store.ListExecutionRecordsByStatus(ExecStarted);
      todo := records;
      ListsStarted(records);
      var k := 0;
      while k < |records|
        invariant 0 <= k <= |records| && Valid()
        invariant RecoverAll(cfg, old(Now()), records, oracle) == RecoverAll(cfg, Now(), records[k..], oracle)
        invariant forall j :: k <= j < |records| ==>
                    && oracle.rollbackId(records[j].action) !in store.db.rollbacks
                    && records[j].id in store.db.executions && store.db.executions[records[j].id].action == records[j].action
      {
        assert records[k..][0] == records[k] && records[k..][1..] == records[k + 1..];
        ok := RecoverExecution(records[k]);
        if !ok {
          return 0, false, records;
        }
        k := k + 1;
      }
      return |records|, true, records;
    }

    /** The listed executions are those found started, and no two are of one action. */
    lemma ListsStarted(records: seq<Execution>)
      requires store.Valid() && store.Lists(records, (x: Execution) => x.status == ExecStarted)
      requires OneRecordPerAction(store.db)
      ensures StartedExecutions(store.db, records)
      ensures forall k :: 0 <= k < |records| ==>
                records[k].id in store.db.executions && store.db.executions[records[k].id] == records[k]
      ensures forall j, k :: 0 <= j < k < |records| ==> records[j].action != records[k].action
    {
      forall k | 0 <= k < |records|
        ensures records[k].id in store.db.executions && store.db.executions[records[k].id] == records[k] && records[k].status == ExecStarted
      {
        assert records[k] in records;
      }
      forall j, k | 0 <= j < k < |records| ensures records[j].id != records[k].id && records[j].action != records[k].action {
        assert M.ExecutionId(records[j]) != M.ExecutionId(records[k]);
        assert !SameAction(store.db, records[j].id, records[k].id);
      }
      forall r | r in store.db.executions && store.db.executions[r].status == ExecStarted ensures store.db.executions[r] in records {
        assert store.db.executions[r].id == r;
      }
    }

    // ----- Execution

    /** findDuplicateExecution over the action's executions. */
    method FindDuplicate(records: seq<Execution>, action: Id, cooldown: int) returns (found: bool)
      requires forall k :: 0 <= k < |records| ==> records[k].action == action
      ensures found <==> exists k :: 0 <= k < |records| && Blocks(records[k], action, cooldown, now)
    {
      var k := 0;
      while k < |records|
        invariant 0 <= k <= |records|
        invariant forall j :: 0 <= j < k ==> !Blocks(records[j], action, cooldown, now)
      {
        var record := records[k];
        if record.key == ExecuteKey(action) {
          if record.status == ExecStarted || record.status == ExecSucceeded {
            return true;
          }
          if now - record.finishedAt < cooldown {
            return true;
          }
        }
        k := k + 1;
      }
      found := false;
    }

    /** No duplicate, and attempts left. */
    method CheckHistory(action: Action) returns (free: bool)
      requires Valid() && MayExecute(cfg, action)
      ensures free == HistoryAllows(cfg, Now(), action) && (free <==> A.Unspent(cfg, Now(), action))
    {
      hide M.MemoryStore.Valid, A.Unspent;
      A.HistoryIff(cfg, Now(), action);
      var definition := cfg.catalog[action.actionType];
      var existing := store.ListExecutionRecordsByAction(action.id);
      ListsHistory(existing, action.id);
      ListsDuplicates(existing, action.id, CooldownOf(cfg, definition));
      var cooldown := CooldownOf(cfg, definition);
      var duplicate := FindDuplicate(existing, action.id, cooldown);
      free := !duplicate && !(definition.maxAttempts > 0 && |existing| >= definition.maxAttempts);
    }

    lemma ListsHistory(existing: seq<Execution>, action: Id)
      requires store.Valid() && store.Lists(existing, (x: Execution) => x.action == action)
      ensures forall k :: 0 <= k < |existing| ==> existing[k].action == action
      ensures forall r :: r in store.db.executions ==> store.db.executions[r].id == r
      ensures Attempts(store.db, action) == |existing|
    {
      forall k | 0 <= k < |existing| ensures existing[k].action == action && existing[k].id in store.db.executions {
        assert existing[k] in existing;
      }
      var ids := set r | r in store.db.executions && store.db.executions[r].action == action;
      forall r | r in ids ensures exists k :: 0 <= k < |existing| && existing[k].id == r {
        assert store.db.executions[r].id == r && store.db.executions[r] in existing;
      }
      ListedAttempts(existing, ids);
    }

    lemma ListsDuplicates(existing: seq<Execution>, action: Id, cooldown: int)
      requires store.Valid() && store.Lists(existing, (x: Execution) => x.action == action)
      ensures Duplicate(store.db, action, cooldown, now)
              <==> exists k :: 0 <= k < |existing| && Blocks(existing[k], action, cooldown, now)
    {
      forall k | 0 <= k < |existing| && Blocks(existing[k], action, cooldown, now) ensures Duplicate(store.db, action, cooldown, now) {
        assert existing[k] in existing;
        assert Blocks(store.db.executions[existing[k].id], action, cooldown, now);
      }
      forall r | r in store.db.executions && Blocks(store.db.executions[r], action, cooldown, now)
        ensures exists k :: 0 <= k < |existing| && Blocks(existing[k], action, cooldown, now)
      {
        assert store.db.executions[r].id == r && store.db.executions[r] in existing;
      }
    }

    /** The newest approving record decides. */
    method NewestApproval(records: seq<Approval>, digest: string, rule: string) returns (approval: Option<Approval>)
      ensures approval == ValidApproval(records, digest, rule, now)
    {
      var k := |records|;
      assert records[..k] == records;
      while k > 0
        invariant 0 <= k <= |records|
        invariant ValidApproval(records, digest, rule, now) == ValidApproval(records[..k], digest, rule, now)
      {
        assert records[..k][..k - 1] == records[..k - 1];
        k := k - 1;
        var record := records[k];
        if record.approved {
          if record.expiresAt.None? || record.expiresAt.value <= now {
            return None;
          }
          if record.digest != digest || record.policy != rule {
            return None;
          }
          return Some(record);
        }
      }
      approval := None;
    }

    /** validateApproval. */
    method ValidateApproval(action: Action) returns (certificate: Option<Certificate>)
      requires Valid()
      ensures certificate == CertificateFor(Now(), action)
    {
      hide M.MemoryStore.Valid, Digest.ActionApprovalDigest, ValidApproval;
      var decision := store.GetPolicyDecision(action.id);
      if decision.None? {
        return None;
      }
      var rule := decision.value.rule;
      var records := store.ListApprovals(action.id);
      var approval := NewestApproval(records, Digest.ActionApprovalDigest(action, rule), rule);
      return if approval.Some? then Some(Certificate(approval.value, rule, now)) else None;
    }

    /** What the checks find is what the action, its entry and its records say. */
    lemma AdmitsIff(action: Action)
      requires Valid() && MayExecute(cfg, action)
      ensures var w := Now();
              A.Admissible(cfg, w, action)
              <==> && HistoryAllows(cfg, w, action) && StatusAllows(cfg, action)
                   && (action.status == Allowed || CertificateFor(w, action).Some?)
                   && !w.killed && action.incident in w.db.incidents
                   && InScope(action, w.db.incidents[action.incident], cfg.catalog[action.actionType])
                   && Current(EvidenceOf(cfg, action, now), now)
    {
      hide M.MemoryStore.Valid, HistoryAllows, A.Unspent, A.Evidenced, Current, ValidApproval, A.Standing;
      A.HistoryIff(cfg, Now(), action);
      A.EvidenceIff(cfg, action, now);
      if action.id in store.db.decisions {
        var rule := store.db.decisions[action.id].rule;
        A.StandingIff(Tables.ApprovalsOf(store.db, action.id), Digest.ActionApprovalDigest(action, rule), rule, now);
      }
    }

    /** Every check between the load of the action and the claim. */
    method Admit(action: Action, initiator: string) returns (certificate: Option<Certificate>)
      requires Valid() && MayExecute(cfg, action)
      ensures Finish(cfg, Now(), ExecRead(action, initiator), oracle)
              == if certificate.Some? then Finish(cfg, Now(), ExecReady(action, initiator, certificate.value), oracle)
                 else Ending(Now(), false)
      ensures certificate.Some? <==> A.Admissible(cfg, Now(), action)
    {
      hide Finish, M.MemoryStore.Valid, HistoryAllows, InScope, CertificateFor, Current, A.Admissible;
      AdmitsIff(action);
      AtExecRead(cfg, Now(), action, initiator, oracle);
      AtExecListed(cfg, Now(), action, initiator, oracle);
      var free := CheckHistory(action);
      if !free || !StatusAllows(cfg, action) {
        return None;
      }
      certificate := Some(NoCertificate);
      if action.status != Allowed {
        certificate := ValidateApproval(action);
        if certificate.None? {
          return;
        }
      }
      AtExecCleared(cfg, Now(), action, initiator, certificate.value, oracle);
      if killed {
        return None;
      }
      var incident := store.GetIncident(action.incident);
      if incident.None? || !InScope(action, incident.value, cfg.catalog[action.actionType]) {
        return None;
      }
      var supported := ValidateEvidenceFreshness(EvidenceOf(cfg, action, now), now);
      if !supported {
        return None;
      }
    }

    /** executeWithRetry: at least one call and at most retries + 1, another one only after a retryable
        error, always with the same record and certificate. */
    method ExecuteWithRetry(action: Action, execution: Execution, certificate: Certificate) returns (answer: AdapterOutcome, tries: nat)
      modifies this`calls
      ensures 1 <= tries <= cfg.retries + 1
      ensures calls == old(calls) + seq(tries, _ => ExecuteCall(action, execution.id, certificate))
      ensures forall k :: 0 <= k < tries - 1 ==> oracle.execute(action.id, k) == AdapterRetryable
      ensures answer == oracle.execute(action.id, tries - 1) && (answer == AdapterRetryable ==> tries == cfg.retries + 1)
      ensures Finish(cfg, old(Now()), Dispatching(action, execution, certificate, 0), oracle)
              == Finish(cfg, Now(), Saving(action, Answered(execution, answer, now), ExecutingAction), oracle)
    {
      hide Finish, Answered;
      tries := 0;
      answer := AdapterRetryable;
      ghost var call := ExecuteCall(action, execution.id, certificate);
      while answer == AdapterRetryable && tries <= cfg.retries
        invariant tries <= cfg.retries + 1 && (tries == 0 ==> answer == AdapterRetryable)
        invariant calls == old(calls) + seq(tries, _ => call)
        invariant forall k :: 0 <= k < tries - 1 ==> oracle.execute(action.id, k) == AdapterRetryable
        invariant tries > 0 ==> answer == oracle.execute(action.id, tries - 1)
        invariant Finish(cfg, old(Now()), Dispatching(action, execution, certificate, 0), oracle)
                  == if answer == AdapterRetryable && tries <= cfg.retries then Finish(cfg, Now(), Dispatching(action, execution, certificate, tries), oracle)
                     else Finish(cfg, Now(), Saving(action, Answered(execution, answer, now), ExecutingAction), oracle)
        decreases cfg.retries + 1 - tries, answer == AdapterRetryable
      {
        AtDispatching(cfg, Now(), action, execution, certificate, tries, oracle);
        calls := calls + [ExecuteCall(action, execution.id, certificate)];
        answer := oracle.execute(action.id, tries);
        tries := tries + 1;
      }
    }

    /** The action is admissible, has no record, and its target is idle. */
    ghost predicate Dispatchable(action: Action)
      reads this, store
    {
      A.Admissible(cfg, Now(), action) && S.Idle(store.db, action)
    }

    lemma DispatchesExactly(action: Action, initiator: string)
      requires action.id in store.db.actions && store.db.actions[action.id] == action && oracle.executionId(action.id) !in store.db.executions
      ensures var ending := Finish(cfg, Now(), ExecRead(action, initiator), oracle);
              if Dispatchable(action) then |ending.world.log| > |calls| else ending == Ending(Now(), false)
      ensures Dispatchable(action) ==> MayExecute(cfg, action)
    {
      hide Finish, A.Unspent, A.Permitted, A.Evidenced, S.Idle, S.Executed, A.ClaimsWith;
      var n, certificate := S.DispatchesIff(cfg, Now(), action, initiator, oracle);
    }

    /** ExecuteAction: checks, claim, dispatch with retries, and what follows. */
    method ExecuteAction(id: Id, initiator: string) returns (reply: Reply)
      requires Valid() && oracle.executionId(id) !in store.db.executions && oracle.rollbackId(id) !in store.db.rollbacks
      modifies this`calls, store
      ensures Valid()
      ensures if initiator != "" && id in old(store.db).actions && MayExecute(cfg, old(store.db).actions[id])
              then Ending(Now(), reply.Ran?) == Finish(cfg, old(Now()), ExecRead(old(store.db).actions[id], initiator), oracle)
              else reply == Error && Now() == old(Now())
      ensures if initiator != "" && id in old(store.db).actions && old(Dispatchable(store.db.actions[id])) then |calls| > |old(calls)|
              else reply == Error && Now() == old(Now())
      ensures reply.Ran? ==> oracle.executionId(id) in store.db.executions
                             && store.db.executions[oracle.executionId(id)].status == reply.status
    {
      hide Finish, M.MemoryStore.Valid, Tables.ClaimExecution, Answered, Dispatchable;
      if initiator == "" {
        return Error;
      }
      var action := store.GetCandidateAction(id);
      if action.Some? {
        DispatchesExactly(action.value, initiator);
      }
      if action.None? || !MayExecute(cfg, action.value) {
        return Error;
      }
      var certificate := Admit(action.value, initiator);
      if certificate.None? {
        return Error;
      }
      reply := Dispatch(action.value, initiator, certificate.value);
    }

    /** From the claim to the end. */
    method Dispatch(action: Action, initiator: string, certificate: Certificate) returns (reply: Reply)
      requires Valid() && MayExecute(cfg, action)
      requires oracle.executionId(action.id) !in store.db.executions && oracle.rollbackId(action.id) !in store.db.rollbacks
      modifies this`calls, store
      ensures Valid()
      ensures Ending(Now(), reply.Ran?) == Finish(cfg, old(Now()), ExecReady(action, initiator, certificate), oracle)
      ensures reply.Ran? ==> oracle.executionId(action.id) in store.db.executions
                             && store.db.executions[oracle.executionId(action.id)].status == reply.status
    {
      hide Finish, M.MemoryStore.Valid, MayExecute;
      AtExecReady(cfg, Now(), action, initiator, certificate, oracle);
      var record := ClaimedRecord(action, initiator, oracle, now);
      var claimed := store.ClaimExecution(action.incident, action.id, record);
      if claimed != M.Yes {
        return Error;
      }
      var answer, _ := ExecuteWithRetry(action, record, certificate);
      var ended := Answered(record, answer, now);
      var ok := Settle(action, ended, ExecutingAction);
      return if ok then Ran(ended.status) else Error;
    }
  }
}
