/** What approving, rejecting, evaluating and triaging leave behind when nobody steps in between, told
    from the rows and the catalog alone. */
module DecisionOutcomes {
  import opened Domain
  import opened StateMachine
  import opened Tables
  import opened Protocol
  import opened Completion
  import Digest
  import Policy

  // ----- Operators

  /** The name has a character that is not white space. */
  ghost predicate Named(name: string) {
    exists k :: 0 <= k < |name| && !Digest.IsSpace(name[k])
  }

  lemma {:induction false} TrimmedLeft(s: string)
    ensures Digest.TrimLeft(s) != "" <==> Named(s)
    ensures Digest.TrimLeft(s) != "" ==> !Digest.IsSpace(Digest.TrimLeft(s)[0])
  {
    if s != "" && Digest.IsSpace(s[0]) {
      TrimmedLeft(s[1..]);
      if k :| 0 <= k < |s| && !Digest.IsSpace(s[k]) {
        assert s[1..][k - 1] == s[k];
      }
      if k :| 0 <= k < |s[1..]| && !Digest.IsSpace(s[1..][k]) {
        assert s[k + 1] == s[1..][k];
      }
    }
  }

  lemma {:induction false} TrimmedRight(s: string)
    requires s != "" && !Digest.IsSpace(s[0])
    ensures Digest.TrimRight(s) != ""
  {
    if Digest.IsSpace(s[|s| - 1]) {
      TrimmedRight(s[..|s| - 1]);
    }
  }

  lemma NonblankIff(name: string)
    ensures Nonblank(name) <==> Named(name)
  {
    TrimmedLeft(name);
    if Digest.TrimLeft(name) != "" {
      TrimmedRight(Digest.TrimLeft(name));
    }
  }

  /** An approval goes through exactly when a decision on the action is saved and its incident is
      action-proposed, awaiting approval or approved. It leaves one record, in the approver's name, for the
      stored action under the saved rule, good for 900 seconds; otherwise nothing. */
  lemma ApprovalLeaves(cfg: Config, w: World, action: Action, approver: string, oracle: Oracle)
    requires action.id in w.db.actions && w.db.actions[action.id] == action && action.status == Awaiting
    ensures var ending, i := Finish(cfg, w, ApproveRead(action, approver), oracle), action.incident;
            && (ending.ok <==> && action.id in w.db.decisions && i in w.db.incidents
                               && w.db.incidents[i].state in {ActionProposed, AwaitingApproval, Approved})
            && (!ending.ok ==> ending.world == w)
            && (ending.ok ==>
                  var rule := w.db.decisions[action.id].rule;
                  var record := Approval(action.id, approver, true, Digest.ActionApprovalDigest(action, rule), rule, Some(w.now + 900), w.now);
                  ending.world == w.(db := w.db.(
                    actions := w.db.actions[action.id := action.(status := ActionApproved)],
                    incidents := w.db.incidents[i := w.db.incidents[i].(state := Approved)],
                    approvals := w.db.approvals[action.id := ApprovalsOf(w.db, action.id) + [record]])))
  {
    hide Finish;
    AtApproveRead(cfg, w, action, approver, oracle);
  }

  /** A rejection is recorded in the rejecting operator's name, whatever becomes of the refresh. */
  lemma RejectionLeaves(cfg: Config, w: World, action: Action, approver: string, oracle: Oracle)
    requires action.id in w.db.actions && w.db.actions[action.id] == action && action.status == Awaiting
    requires action.incident in w.db.incidents
    ensures var db := Finish(cfg, w, RejectRead(action, approver), oracle).world.db;
            && db.actions == w.db.actions[action.id := action.(status := Denied)]
            && db.approvals == w.db.approvals[action.id := ApprovalsOf(w.db, action.id) + [Approval(action.id, approver, false, "", "", None, w.now)]]
            && db.decisions == w.db.decisions && db.executions == w.db.executions
  {
    hide Finish, RefreshTarget;
    AtRejectRead(cfg, w, action, approver, oracle);
    var write := DecideApproval(w.db, action.incident, RejectionRecord(action, approver, w.now), Awaiting, Denied, None, None);
    var from := w.db.incidents[action.incident].state;
    AtRefreshing(cfg, w.(db := write.db), action.incident, from, oracle);
    AtMoving(cfg, w.(db := write.db), action.incident, from, RefreshTarget(write.db, action.incident), oracle);
  }

  // ----- Policy

  /** Which rule decides, told from the catalog entry; the earlier of two failing checks wins. */
  lemma DecidingRule(catalog: Catalog, topology: Policy.Topology, action: Action, environment: string, killed: bool)
    requires action.actionType in catalog && !killed
    requires var d := catalog[action.actionType];
             environment in d.environments && (d.targets == [] || action.target in d.targets)
    ensures var d, decision := catalog[action.actionType], Policy.Evaluate(catalog, topology, action, environment, killed);
            var rule := decision.rule;
            && (d.risk == "low" ==> rule == "risk/low-requires-approval")
            && (d.risk == "high" ==> rule == "risk/high-blocked-in-mvp")
            && (d.risk !in ["low", "medium", "high"] ==> rule == "risk/unknown")
            && decision.kind == (if rule in ["risk/low-requires-approval", "risk/medium-requires-approval"] then RequireApproval else Deny)
            && (d.risk == "medium" ==>
                  var known := action.target in topology;
                  var mapped := known && topology[action.target] != [];
                  var planned := mapped && d.supportsRollback && d.rollbackKey != "";
                  var undoable := planned && d.rollbackKey in catalog;
                  && (rule == "dependency/metadata-required" <==> !known)
                  && (rule == "dependency/map-required" <==> known && !mapped)
                  && (rule == "safety/rollback-plan-required" <==> mapped && !planned)
                  && (rule == "safety/rollback-action-missing" <==> planned && !undoable)
                  && (rule == "risk/medium-disabled" <==> undoable && !d.executable)
                  && (rule == "risk/medium-requires-approval" <==> undoable && d.executable))
  {
    RulesDiffer();
  }

  lemma RulesDiffer()
    ensures |"low"| == 3 && |"high"| == 4 && |"medium"| == 6
    ensures |"dependency/metadata-required"| == 28 && |"dependency/map-required"| == 23 && |"safety/rollback-plan-required"| == 29
    ensures |"safety/rollback-action-missing"| == 30 && |"risk/medium-disabled"| == 20 && |"risk/medium-requires-approval"| == 29
    ensures |"risk/low-requires-approval"| == 26 && |"risk/high-blocked-in-mvp"| == 24 && |"risk/unknown"| == 12
    ensures "safety/rollback-plan-required"[0] != "risk/medium-requires-approval"[0]
  {
  }

  /** The checks before those, in their order. */
  lemma RefusingRule(catalog: Catalog, topology: Policy.Topology, action: Action, environment: string, killed: bool)
    ensures var decision := Policy.Evaluate(catalog, topology, action, environment, killed);
            && (action.actionType !in catalog ==> decision == Decision(action.id, Deny, "catalog/unknown-action"))
            && (action.actionType in catalog ==>
                  var d := catalog[action.actionType];
                  && (killed ==> decision == Decision(action.id, Deny, "safety/global-kill-switch"))
                  && (!killed && environment !in d.environments ==> decision == Decision(action.id, Deny, "scope/environment-allowlist"))
                  && (!killed && environment in d.environments && d.targets != [] && action.target !in d.targets
                      ==> decision == Decision(action.id, Deny, "scope/target-allowlist")))
  {
  }

  // ----- Evaluation

  /** The actions are stored as they are, and none twice. */
  ghost predicate Stored(db: Database, todo: seq<Action>) {
    && (forall k :: 0 <= k < |todo| ==> todo[k].id in db.actions && db.actions[todo[k].id] == todo[k])
    && (forall j, k :: 0 <= j < k < |todo| ==> todo[j].id != todo[k].id)
  }

  /** The action may be put before an operator: the switch is off and the catalog entry allows it. */
  ghost predicate PutUp(cfg: Config, w: World, incident: Incident, action: Action) {
    !w.killed && Policy.Approvable(cfg.catalog, cfg.topology, action, incident.environment)
  }

  /** Every evaluated action awaits approval or is denied; the others are as before. */
  ghost predicate Sorted(cfg: Config, w: World, incident: Incident, todo: seq<Action>, actions: map<Id, Action>) {
    && (forall k :: 0 <= k < |todo| ==>
          && todo[k].id in actions
          && actions[todo[k].id] == todo[k].(status := if PutUp(cfg, w, incident, todo[k]) then Awaiting else Denied))
    && (forall a :: a in actions <==> a in w.db.actions)
    && (forall a :: a in w.db.actions && (forall k :: 0 <= k < |todo| ==> todo[k].id != a) ==> actions[a] == w.db.actions[a])
  }

  /** The decisions say so. */
  ghost predicate Explained(cfg: Config, w: World, incident: Incident, todo: seq<Action>, decided: seq<Decision>) {
    && |decided| == |todo|
    && forall k :: 0 <= k < |todo| ==>
         && decided[k].action == todo[k].id
         && decided[k].kind == if PutUp(cfg, w, incident, todo[k]) then RequireApproval else Deny
  }

  lemma {:induction false} ActionsEvaluated(cfg: Config, w: World, incident: Incident, todo: seq<Action>, decided: seq<Decision>, oracle: Oracle)
    returns (w': World, more: seq<Decision>)
    requires Stored(w.db, todo)
    ensures Finish(cfg, w, Evaluating(incident, todo, decided), oracle) == Finish(cfg, w', Evaluating(incident, [], decided + more), oracle)
    ensures w' == w.(db := w.db.(actions := w'.db.actions))
    ensures Sorted(cfg, w, incident, todo, w'.db.actions) && Explained(cfg, w, incident, todo, more)
    decreases |todo|
  {
    hide Finish, Policy.Evaluate, Policy.Approvable;
    if todo == [] {
      w', more := w, [];
      assert decided + more == decided;
    } else {
      var first, rest := todo[0], todo[1..];
      var decision := Policy.Evaluate(cfg.catalog, cfg.topology, first, incident.environment, w.killed);
      Policy.EvaluateGatesEverything(cfg.catalog, cfg.topology, first, incident.environment, w.killed);
      AtEvaluating(cfg, w, incident, todo, decided, oracle);
      var w1 := w.(db := SetStatus(w.db, first.id, if PutUp(cfg, w, incident, first) then Awaiting else Denied));
      forall k | 0 <= k < |rest| ensures rest[k].id in w1.db.actions && w1.db.actions[rest[k].id] == rest[k] {
        assert todo[k + 1] == rest[k] && todo[0].id != todo[k + 1].id;
      }
      forall j, k | 0 <= j < k < |rest| ensures rest[j].id != rest[k].id {
        assert todo[j + 1].id != todo[k + 1].id;
      }
      var later;
      w', later := ActionsEvaluated(cfg, w1, incident, rest, decided + [decision], oracle);
      more := [decision] + later;
      assert decided + [decision] + later == decided + more;
      SortedOn(cfg, w, w1, w', incident, todo);
      forall k | 0 <= k < |todo|
        ensures more[k].action == todo[k].id && more[k].kind == if PutUp(cfg, w, incident, todo[k]) then RequireApproval else Deny
      {
        if k > 0 {
          assert later[k - 1].action == rest[k - 1].id && rest[k - 1] == todo[k];
        }
      }
    }
  }

  lemma SortedOn(cfg: Config, w: World, w1: World, w': World, incident: Incident, todo: seq<Action>)
    requires todo != [] && Stored(w.db, todo)
    requires w1 == w.(db := SetStatus(w.db, todo[0].id, if PutUp(cfg, w, incident, todo[0]) then Awaiting else Denied))
    requires Sorted(cfg, w1, incident, todo[1..], w'.db.actions)
    ensures Sorted(cfg, w, incident, todo, w'.db.actions)
  {
    hide Policy.Approvable;
    var rest := todo[1..];
    forall k | 0 <= k < |todo|
      ensures todo[k].id in w'.db.actions
      ensures w'.db.actions[todo[k].id] == todo[k].(status := if PutUp(cfg, w, incident, todo[k]) then Awaiting else Denied)
    {
      if k == 0 {
        assert forall j :: 0 <= j < |rest| ==> rest[j] == todo[j + 1] && rest[j].id != todo[0].id;
        assert w'.db.actions[todo[0].id] == w1.db.actions[todo[0].id];
      } else {
        assert rest[k - 1] == todo[k];
      }
    }
    forall a | a in w.db.actions && (forall k :: 0 <= k < |todo| ==> todo[k].id != a) ensures w'.db.actions[a] == w.db.actions[a] {
      assert todo[0].id != a;
      assert forall j :: 0 <= j < |rest| ==> rest[j] == todo[j + 1];
    }
  }

  /** Some action of the incident has the status. */
  ghost predicate Has(actions: map<Id, Action>, incident: Id, status: ActionStatus) {
    exists a :: a in actions && IsOf(actions[a], incident, status)
  }

  predicate IsOf(action: Action, incident: Id, status: ActionStatus) {
    action.incident == incident && action.status == status
  }

  /** What evaluation leaves: every evaluated row awaits approval exactly if it may be put up and is denied
      otherwise, the decisions saved say the same, and the incident, proposed when the call began, goes where
      its actions call for. */
  lemma EvaluationLeaves(cfg: Config, w: World, incident: Incident, todo: seq<Action>, oracle: Oracle)
    requires Stored(w.db, todo) && incident.state == ActionProposed
    requires incident.id in w.db.incidents && w.db.incidents[incident.id].state == ActionProposed
    ensures var ending := Finish(cfg, w, Evaluating(incident, todo, []), oracle);
            var db := ending.world.db;
            && ending.ok && ending.world.log == w.log
            && Sorted(cfg, w, incident, todo, db.actions)
            && (forall k :: 0 <= k < |todo| ==>
                  && todo[k].id in db.decisions && db.decisions[todo[k].id].action == todo[k].id
                  && db.decisions[todo[k].id].kind == if PutUp(cfg, w, incident, todo[k]) then RequireApproval else Deny)
            && (forall a :: a in w.db.decisions && (forall k :: 0 <= k < |todo| ==> todo[k].id != a)
                            ==> a in db.decisions && db.decisions[a] == w.db.decisions[a])
            && db.incidents == w.db.incidents[incident.id := w.db.incidents[incident.id].(state :=
                 if Has(db.actions, incident.id, ActionApproved) || Has(db.actions, incident.id, Allowed) then Approved
                 else if Has(db.actions, incident.id, Awaiting) then AwaitingApproval
                 else ActionProposed)]
            && db.approvals == w.db.approvals && db.executions == w.db.executions
  {
    hide Finish, Policy.Approvable, RefreshTarget;
    var w1, decided := ActionsEvaluated(cfg, w, incident, todo, [], oracle);
    assert [] + decided == decided;
    hide Sorted;
    AtEvaluating(cfg, w1, incident, [], decided, oracle);
    var w2 := w1.(db := SavePolicyDecisions(w1.db, decided));
    forall j, k | 0 <= j < k < |decided| ensures decided[j].action != decided[k].action {
      assert todo[j].id != todo[k].id;
    }
    DecisionsSaved(w1.db, decided);
    RefreshLeaves(cfg, w2, incident.id, oracle);
    hide Has, PutUp, SavePolicyDecisions;
    forall k | 0 <= k < |todo|
      ensures todo[k].id in w2.db.decisions && w2.db.decisions[todo[k].id].action == todo[k].id
      ensures w2.db.decisions[todo[k].id].kind == if PutUp(cfg, w, incident, todo[k]) then RequireApproval else Deny
    {
      assert decided[k].action == todo[k].id;
    }
    forall a | a in w.db.decisions && (forall k :: 0 <= k < |todo| ==> todo[k].id != a)
      ensures a in w2.db.decisions && w2.db.decisions[a] == w.db.decisions[a]
    {
      assert forall k :: 0 <= k < |decided| ==> decided[k].action == todo[k].id;
    }
  }

  /** The refresh of a proposed incident. */
  lemma RefreshLeaves(cfg: Config, w: World, i: Id, oracle: Oracle)
    requires i in w.db.incidents && w.db.incidents[i].state == ActionProposed
    ensures Finish(cfg, w, Refreshing(i, ActionProposed), oracle)
            == Ending(w.(db := w.db.(incidents := w.db.incidents[i := w.db.incidents[i].(state :=
                 if Has(w.db.actions, i, ActionApproved) || Has(w.db.actions, i, Allowed) then Approved
                 else if Has(w.db.actions, i, Awaiting) then AwaitingApproval
                 else ActionProposed)])), true)
  {
    hide Finish, RefreshTarget, Has;
    AtRefreshing(cfg, w, i, ActionProposed, oracle);
    AtMoving(cfg, w, i, ActionProposed, RefreshTarget(w.db, i), oracle);
    TargetInFields(w.db, i);
    assert w.db.incidents[i := w.db.incidents[i].(state := ActionProposed)] == w.db.incidents;
  }

  lemma TargetInFields(db: Database, incident: Id)
    ensures RefreshTarget(db, incident)
            == if Has(db.actions, incident, ActionApproved) || Has(db.actions, incident, Allowed) then Approved
               else if Has(db.actions, incident, Awaiting) then AwaitingApproval
               else ActionProposed
  {
    forall status ensures (exists a :: a in db.actions && OpenAs(db, a, incident, status)) <==> Has(db.actions, incident, status) {
      if a :| a in db.actions && OpenAs(db, a, incident, status) {
        assert IsOf(db.actions[a], incident, status);
      }
      if a :| a in db.actions && IsOf(db.actions[a], incident, status) {
        assert OpenAs(db, a, incident, status);
      }
    }
  }

  lemma {:induction false} DecisionsSaved(db: Database, decided: seq<Decision>)
    requires forall j, k :: 0 <= j < k < |decided| ==> decided[j].action != decided[k].action
    ensures var db' := SavePolicyDecisions(db, decided);
            && db' == db.(decisions := db'.decisions)
            && (forall k :: 0 <= k < |decided| ==> decided[k].action in db'.decisions && db'.decisions[decided[k].action] == decided[k])
            && (forall a :: a in db.decisions && (forall k :: 0 <= k < |decided| ==> decided[k].action != a)
                            ==> a in db'.decisions && db'.decisions[a] == db.decisions[a])
  {
    if decided != [] {
      var before, last := decided[..|decided| - 1], decided[|decided| - 1];
      assert forall k :: 0 <= k < |before| ==> before[k] == decided[k];
      DecisionsSaved(db, before);
      assert forall k :: 0 <= k < |decided| ==> decided[k] == last || (k < |before| && decided[k].action != last.action);
    }
  }

  // ----- Triage

  /** A triage of a detected incident saves what is generated; with nothing valid the incident is
      escalated, otherwise the valid actions are evaluated. */
  lemma TriageLeaves(cfg: Config, w: World, incident: Incident, oracle: Oracle)
    requires incident.id in w.db.incidents && w.db.incidents[incident.id] == incident
    requires FreshActions(w.db, incident.id, oracle.generated(incident.id))
    ensures var ending, generated := Finish(cfg, w, TriageRead(incident), oracle), oracle.generated(incident.id);
            if incident.state !in {Detected, Triaging} then ending == Ending(w, false)
            else
              var row := w.db.incidents[incident.id];
              var saved := SaveCandidateActions(w.db, generated);
              if forall k :: 0 <= k < |generated| ==> generated[k].status == Invalid then
                ending == Ending(w.(db := saved.(incidents := w.db.incidents[incident.id := row.(state := Escalated)])), true)
              else
                ending == Finish(cfg, w.(db := saved.(incidents := w.db.incidents[incident.id := row.(state := ActionProposed)])),
                                 Evaluating(incident.(state := ActionProposed), Evaluable(generated), []), oracle)
  {
    hide Finish, FreshActions, SaveCandidateActions, Evaluable;
    var generated := oracle.generated(incident.id);
    if incident.state !in {Detected, Triaging} {
      AbortEnds(cfg, w, TriageRead(incident), oracle);
    } else {
      TriageCollects(cfg, w, incident, oracle);
      SavedActionsOnly(w.db, generated);
      var w2 := w.(db := SaveCandidateActions(w.db, generated).(incidents := w.db.incidents[incident.id := incident.(state := Triaging)]));
      ProposedLeaves(cfg, w2, incident.(state := Triaging), generated, oracle);
      assert forall state :: w.db.incidents[incident.id := incident.(state := Triaging)][incident.id := incident.(state := state)]
                          == w.db.incidents[incident.id := incident.(state := state)];
    }
  }

  /** The incident is triaging, and what is generated is saved. */
  lemma TriageCollects(cfg: Config, w: World, incident: Incident, oracle: Oracle)
    requires incident.id in w.db.incidents && w.db.incidents[incident.id] == incident && incident.state in {Detected, Triaging}
    requires FreshActions(w.db, incident.id, oracle.generated(incident.id))
    ensures var generated, triaging := oracle.generated(incident.id), incident.(state := Triaging);
            Finish(cfg, w, TriageRead(incident), oracle)
            == Finish(cfg, w.(db := SaveCandidateActions(w.db, generated).(incidents := w.db.incidents[incident.id := triaging])),
                      TriageProposed(triaging, generated), oracle)
  {
    hide Finish, FreshActions, SaveCandidateActions;
    var generated, triaging := oracle.generated(incident.id), incident.(state := Triaging);
    var w1 := w.(db := w.db.(incidents := w.db.incidents[incident.id := triaging]));
    assert incident.state == Triaging ==> w1.db.incidents == w.db.incidents;
    FinishStep(cfg, w, TriageRead(incident), w1, TriageCollected(triaging), oracle);
    SavedApart(w.db, w1.db, generated);
    FreshActionsApart(w.db, w1.db, incident.id, generated);
    FinishStep(cfg, w1, TriageCollected(triaging), w1.(db := SaveCandidateActions(w1.db, generated)), TriageProposed(triaging, generated), oracle);
  }

  lemma ProposedLeaves(cfg: Config, w: World, triaging: Incident, generated: seq<Action>, oracle: Oracle)
    requires triaging.id in w.db.incidents && w.db.incidents[triaging.id] == triaging && triaging.state == Triaging
    ensures Finish(cfg, w, TriageProposed(triaging, generated), oracle)
            == if forall k :: 0 <= k < |generated| ==> generated[k].status == Invalid then
                 Ending(w.(db := w.db.(incidents := w.db.incidents[triaging.id := triaging.(state := Escalated)])), true)
               else
                 Finish(cfg, w.(db := w.db.(incidents := w.db.incidents[triaging.id := triaging.(state := ActionProposed)])),
                        Evaluating(triaging.(state := ActionProposed), Evaluable(generated), []), oracle)
  {
    hide Finish, Evaluable;
    NoneEvaluable(generated);
    if Evaluable(generated) == [] {
      FinishStep(cfg, w, TriageProposed(triaging, generated), w, Moving(triaging.id, Triaging, Escalated), oracle);
      AtMoving(cfg, w, triaging.id, Triaging, Escalated, oracle);
    } else {
      var proposed := triaging.(state := ActionProposed);
      FinishStep(cfg, w, TriageProposed(triaging, generated), w.(db := w.db.(incidents := w.db.incidents[triaging.id := proposed])),
                 Evaluating(proposed, Evaluable(generated), []), oracle);
    }
  }

  lemma FreshActionsApart(db: Database, db': Database, incident: Id, actions: seq<Action>)
    requires FreshActions(db, incident, actions) && db'.actions == db.actions
    ensures FreshActions(db', incident, actions)
  {
  }

  lemma {:induction false} SavedApart(db: Database, db': Database, actions: seq<Action>)
    requires db' == db.(incidents := db'.incidents)
    ensures SaveCandidateActions(db', actions) == SaveCandidateActions(db, actions).(incidents := db'.incidents)
  {
    if actions != [] {
      SavedApart(db, db', actions[..|actions| - 1]);
    }
  }

  lemma {:induction false} SavedActionsOnly(db: Database, actions: seq<Action>)
    ensures var db' := SaveCandidateActions(db, actions); db' == db.(actions := db'.actions)
  {
    if actions != [] {
      SavedActionsOnly(db, actions[..|actions| - 1]);
    }
  }

  /** Exactly the valid actions are evaluated, each as often as it occurs. */
  lemma {:induction false} NoneEvaluable(actions: seq<Action>)
    ensures forall x :: x in Evaluable(actions) <==> x in actions && x.status != Invalid
    ensures Evaluable(actions) == [] <==> forall k :: 0 <= k < |actions| ==> actions[k].status == Invalid
  {
    if actions != [] {
      var before, last := actions[..|actions| - 1], actions[|actions| - 1];
      NoneEvaluable(before);
      assert actions == before + [last];
      assert forall k :: 0 <= k < |before| ==> before[k] == actions[k];
    }
  }
}
