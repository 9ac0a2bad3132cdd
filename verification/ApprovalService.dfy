/** Policy evaluation, approval and rejection over the in-memory store; as for the remediation
    service, every method leaves what the protocol's thread leaves when it runs alone. */
module ApprovalService {
  import opened Domain
  import opened StateMachine
  import opened Protocol
  import opened Completion
  import opened DecisionOutcomes
  import Tables
  import Digest
  import Policy
  import M = MemoryStore

  class Service {
    const cfg: Config
    const store: M.MemoryStore
    const oracle: Oracle
    ghost const calls: seq<Dispatch>
    var now: int
    var killed: bool
    var setting: Option<bool> // the stored kill switch, which outlives the process

    /** A stored setting wins over the configured one. */
    constructor (cfg: Config, store: M.MemoryStore, oracle: Oracle, ghost calls: seq<Dispatch>, now: int, configured: bool, setting: Option<bool>)
      requires store.Valid()
      ensures Valid() && this.cfg == cfg && this.store == store && this.oracle == oracle && this.setting == setting
      ensures Now() == World(store.db, calls, now, if setting.Some? then setting.value else configured)
    {
      this.cfg, this.store, this.oracle, this.now, this.setting := cfg, store, oracle, now, setting;
      this.calls := calls;
      killed := configured;
      new;
      if setting.Some? {
        killed := setting.value;
      }
    }

    ghost predicate Valid()
      reads this, store
    {
      store.Valid()
    }

    ghost function Now(): World
      reads this, store
    {
      World(store.db, calls, now, killed)
    }

    /** If the setting cannot be stored the switch is left on, whatever was asked for. */
    method SetKillSwitch(enabled: bool, stored: bool)
      modifies this`killed, this`setting
      ensures killed == (stored ==> enabled)
      ensures setting == if stored then Some(enabled) else old(setting)
    {
      killed := enabled;
      if stored {
        setting := Some(enabled);
      } else {
        killed := true;
      }
    }

    method TransitionIncidentState(incident: Id, from: IncidentState, to: IncidentState) returns (ok: bool)
      requires Valid()
      modifies store
      ensures Valid()
      ensures Ending(Now(), ok) == Finish(cfg, old(Now()), Moving(incident, from, to), oracle)
    {
      hide Finish, M.MemoryStore.Valid;
      AtMoving(cfg, Now(), incident, from, to, oracle);
      if from == to {
        return true;
      }
      if !CanTransition(from, to) {
        return false;
      }
      var reply := store.CompareAndSwapIncidentState(incident, from, to);
      return reply == M.Yes;
    }

    /** The state the incident's actions call for; an approved or allowed one ends the search. */
    method NextState(incident: Id) returns (next: IncidentState)
      requires Valid()
      ensures next == RefreshTarget(store.db, incident)
    {
      hide M.MemoryStore.Valid;
      var rows := store.ListCandidateActions(incident);
      next := ActionProposed;
      var k := 0;
      while k < |rows|
        invariant 0 <= k <= |rows|
        invariant forall j :: 0 <= j < k ==> rows[j].status != ActionApproved && rows[j].status != Allowed
        invariant next == if exists j :: 0 <= j < k && rows[j].status == Awaiting then AwaitingApproval else ActionProposed
      {
        assert rows[k] in rows;
        if rows[k].status == ActionApproved || rows[k].status == Allowed {
          assert OpenAs(store.db, rows[k].id, incident, rows[k].status);
          return Approved;
        }
        if rows[k].status == Awaiting {
          next := AwaitingApproval;
        }
        k := k + 1;
      }
      forall a, status | a in store.db.actions && OpenAs(store.db, a, incident, status) ensures exists j :: 0 <= j < |rows| && rows[j].status == status {
        assert store.db.actions[a] in rows;
      }
      if next == AwaitingApproval {
        var j :| 0 <= j < |rows| && rows[j].status == Awaiting;
        assert rows[j] in rows;
        assert OpenAs(store.db, rows[j].id, incident, Awaiting);
      }
    }

    /** refreshIncidentState with the caller's snapshot of the state. */
    method RefreshIncidentState(incident: Id, from: IncidentState) returns (ok: bool)
      requires Valid()
      modifies store
      ensures Valid()
      ensures Ending(Now(), ok) == Finish(cfg, old(Now()), Refreshing(incident, from), oracle)
    {
      hide Finish, RefreshTarget, M.MemoryStore.Valid;
      AtRefreshing(cfg, Now(), incident, from, oracle);
      var next := NextState(incident);
      ok := TransitionIncidentState(incident, from, next);
    }

    /** May the operator decide the action? */
    ghost predicate Decidable(id: Id, approver: string)
      reads this, store
    {
      Named(approver) && id in store.db.actions && store.db.actions[id].status == Awaiting
    }

    /** The one new record: this operator, for the action as it is stored under the saved rule, for 900 seconds. */
    ghost predicate ApprovalStored(before: Tables.Database, id: Id, approver: string)
      reads this, store
    {
      && id in before.actions && id in before.decisions
      && var row, rule := before.actions[id], before.decisions[id].rule;
         && store.db.actions == before.actions[id := row.(status := ActionApproved)]
         && store.db.approvals == before.approvals[id := Tables.ApprovalsOf(before, id)
              + [Approval(id, approver, true, Digest.ActionApprovalDigest(row, rule), rule, Some(now + 900), now)]]
         && row.incident in before.incidents
         && store.db.incidents == before.incidents[row.incident := before.incidents[row.incident].(state := Approved)]
    }

    method ApproveAction(id: Id, approver: string) returns (ok: bool)
      requires Valid()
      modifies store
      ensures Valid()
      ensures if old(Decidable(id, approver)) then Ending(Now(), ok) == Finish(cfg, old(Now()), ApproveRead(old(store.db).actions[id], approver), oracle)
              else !ok && Now() == old(Now())
      ensures if ok then ApprovalStored(old(store.db), id, approver) else Now() == old(Now())
    {
      hide Finish, M.MemoryStore.Valid, Tables.DecideApproval, ApprovalRecord, CanTransition, Nonblank, Named;
      NonblankIff(approver);
      if !Nonblank(approver) {
        return false;
      }
      var action := store.GetCandidateAction(id);
      if action.None? || action.value.status != Awaiting {
        return false;
      }
      ApprovalLeaves(cfg, Now(), action.value, approver, oracle);
      AtApproveRead(cfg, Now(), action.value, approver, oracle);
      var decision := store.GetPolicyDecision(id);
      if decision.None? {
        return false;
      }
      var record := ApprovalRecord(action.value, approver, decision.value.rule, now);
      var incident := store.GetIncident(action.value.incident);
      if incident.None? {
        return false;
      }
      var from := incident.value.state;
      if from != Approved && !CanTransition(from, Approved) {
        return false;
      }
      var reply := store.DecideApproval(action.value.incident, record, Awaiting, ActionApproved, Some(from), Some(Approved));
      return reply == M.Yes;
    }

    /** The denial and its record, in this operator's name. */
    ghost predicate RejectionStored(before: Tables.Database, id: Id, approver: string)
      reads this, store
    {
      && id in before.actions
      && store.db.actions == before.actions[id := before.actions[id].(status := Denied)]
      && store.db.approvals == before.approvals[id := Tables.ApprovalsOf(before, id) + [Approval(id, approver, false, "", "", None, now)]]
    }

    method RejectAction(id: Id, approver: string) returns (ok: bool)
      requires Valid()
      modifies store
      ensures Valid()
      ensures if old(Decidable(id, approver)) then Ending(Now(), ok) == Finish(cfg, old(Now()), RejectRead(old(store.db).actions[id], approver), oracle)
              else !ok && Now() == old(Now())
      ensures Now() == old(Now()) || RejectionStored(old(store.db), id, approver)
      ensures ok ==> RejectionStored(old(store.db), id, approver)
    {
      hide Finish, M.MemoryStore.Valid, Tables.DecideApproval, RejectionRecord, Nonblank, Named;
      NonblankIff(approver);
      if !Nonblank(approver) {
        return false;
      }
      var action := store.GetCandidateAction(id);
      if action.None? || action.value.status != Awaiting {
        return false;
      }
      AtRejectRead(cfg, Now(), action.value, approver, oracle);
      var incident := store.GetIncident(action.value.incident);
      if incident.None? {
        return false;
      }
      RejectionLeaves(cfg, Now(), action.value, approver, oracle);
      var record := RejectionRecord(action.value, approver, now);
      var reply := store.DecideApproval(action.value.incident, record, Awaiting, Denied, None, None);
      if reply != M.Yes {
        return false;
      }
      ok := RefreshIncidentState(action.value.incident, incident.value.state);
    }

    // ----- Evaluation

    /** Actions that failed validation are not evaluated. */
    method FilterEvaluable(actions: seq<Action>) returns (filtered: seq<Action>)
      ensures filtered == Evaluable(actions)
    {
      filtered := [];
      var k := 0;
      while k < |actions|
        invariant 0 <= k <= |actions| && filtered == Evaluable(actions[..k])
      {
        assert actions[..k + 1][..k] == actions[..k];
        if actions[k].status != Invalid {
          filtered := filtered + [actions[k]];
        }
        k := k + 1;
      }
      assert actions[..k] == actions;
    }

    /** The incident was just proposed, and the actions are stored as they are. */
    ghost predicate Ready(incident: Incident, actions: seq<Action>)
      reads this, store
    {
      incident.id in store.db.incidents && store.db.incidents[incident.id].state == ActionProposed && Stored(store.db, Evaluable(actions))
    }

    /** EvaluateActions: one status write per action, then all decisions at once, then the refresh. */
    method EvaluateActions(incident: Incident, actions: seq<Action>) returns (ok: bool)
      requires Valid()
      modifies store
      ensures Valid()
      ensures if Evaluable(actions) == [] then ok && Now() == old(Now())
              else Ending(Now(), ok) == Finish(cfg, old(Now()), Evaluating(incident, Evaluable(actions), []), oracle)
      ensures incident.state == ActionProposed && old(Ready(incident, actions)) ==>
                ok && Sorted(cfg, old(Now()), incident, Evaluable(actions), store.db.actions)
    {
      hide Finish, M.MemoryStore.Valid, Policy.Evaluate, Policy.StatusFromDecision;
      var filtered := FilterEvaluable(actions);
      if filtered == [] {
        return true;
      }
      if incident.state == ActionProposed && Ready(incident, actions) {
        EvaluationLeaves(cfg, Now(), incident, filtered, oracle);
      }
      var decisions: seq<Decision> := [];
      var k := 0;
      assert filtered[0..] == filtered;
      while k < |filtered|
        invariant 0 <= k <= |filtered| && Valid()
        invariant Finish(cfg, old(Now()), Evaluating(incident, filtered, []), oracle)
                  == Finish(cfg, Now(), Evaluating(incident, filtered[k..], decisions), oracle)
      {
        AtEvaluating(cfg, Now(), incident, filtered[k..], decisions, oracle);
        assert filtered[k..][0] == filtered[k] && filtered[k..][1..] == filtered[k + 1..];
        var decision := Policy.Evaluate(cfg.catalog, cfg.topology, filtered[k], incident.environment, killed);
        decisions := decisions + [decision];
        var reply := store.UpdateCandidateActionStatus(filtered[k].id, Policy.StatusFromDecision(decision));
        if reply != M.Yes {
          return false;
        }
        k := k + 1;
      }
      AtEvaluating(cfg, Now(), incident, [], decisions, oracle);
      store.SavePolicyDecisions(decisions);
      ok := RefreshIncidentState(incident.id, incident.state);
    }
  }
}
