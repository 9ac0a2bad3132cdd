/** A claim does not look at the incident: a run in which an escalated incident is taken back to
    executing, next to its open successor. */
module Revival {
  import opened Domain
  import opened StateMachine
  import opened Tables
  import opened Protocol
  import opened ProtocolInvariant
  import opened ProtocolSteps
  import opened ProtocolRuns
  import opened Completion
  import Digest
  import E = EvidenceItems
  import Intake
  import Policy

  /** Two actions that triage proposes for the first incident of an alert. */
  datatype Scene = Scene(cfg: Config, alert: string, environment: string, first: Action, second: Action)

  const INCIDENT := 1
  const SUCCESSOR := 2
  const OPERATOR := "operator"

  /** The operator may be asked about the action, and it may be executed on fresh evidence. */
  predicate Suitable(scene: Scene, action: Action) {
    && action.incident == INCIDENT && action.status == Proposed
    && MayExecute(scene.cfg, action)
    && Policy.Approvable(scene.cfg.catalog, scene.cfg.topology, action, scene.environment)
    && E.Current(EvidenceOf(scene.cfg, action, 0), 0)
  }

  ghost predicate Possible(scene: Scene) {
    Suitable(scene, scene.first) && Suitable(scene, scene.second) && scene.first.id != scene.second.id
  }

  /** The adapter refuses the first action for good. */
  function Answers(scene: Scene): Oracle {
    Oracle((i: Id) => [scene.first, scene.second], (a: Id) => a, (a: Id, n: nat) => AdapterFatal, (a: Id) => ReconciledUnknown,
           (a: Id) => Inconclusive, (a: Id) => a, (a: Id) => AdapterFatal, (a: Id) => NoFault)
  }

  // ----- The tables along the run

  function Subject(scene: Scene, state: IncidentState): Incident {
    Incident(INCIDENT, scene.alert, scene.environment, state, 0)
  }

  function Successor(scene: Scene): Incident {
    Incident(SUCCESSOR, scene.alert, scene.environment, Detected, 1)
  }

  function Arrived(scene: Scene, state: IncidentState): Database {
    EMPTY.(incidents := map[INCIDENT := Subject(scene, state)])
  }

  function Staged(scene: Scene, state: IncidentState, first: ActionStatus, second: ActionStatus): Database {
    Arrived(scene, state).(actions := map[scene.first.id := scene.first.(status := first), scene.second.id := scene.second.(status := second)])
  }

  function DecisionOn(scene: Scene, action: Action): Decision {
    Policy.Evaluate(scene.cfg.catalog, scene.cfg.topology, action, scene.environment, false)
  }

  function Decided(scene: Scene, state: IncidentState, first: ActionStatus, second: ActionStatus): Database {
    Staged(scene, state, first, second)
      .(decisions := map[scene.first.id := DecisionOn(scene, scene.first), scene.second.id := DecisionOn(scene, scene.second)])
  }

  function Grant(scene: Scene, action: Action): Approval {
    ApprovalRecord(action.(status := Awaiting), OPERATOR, DecisionOn(scene, action).rule, 0)
  }

  function Granted(scene: Scene, state: IncidentState, first: ActionStatus, second: ActionStatus): Database {
    Decided(scene, state, first, second)
      .(approvals := map[scene.first.id := [Grant(scene, scene.first)], scene.second.id := [Grant(scene, scene.second)]])
  }

  function At(db: Database, log: seq<Dispatch>): World {
    World(db, log, 0, false)
  }

  lemma SetStatusOfStaged(scene: Scene, state: IncidentState, first: ActionStatus, second: ActionStatus, status: ActionStatus)
    requires scene.first.id != scene.second.id
    ensures SetStatus(Staged(scene, state, first, second), scene.first.id, status) == Staged(scene, state, status, second)
    ensures SetStatus(Staged(scene, state, first, second), scene.second.id, status) == Staged(scene, state, first, status)
    ensures Staged(scene, state, first, second).actions[scene.first.id := scene.first.(status := status)] == Staged(scene, state, status, second).actions
    ensures Staged(scene, state, first, second).actions[scene.second.id := scene.second.(status := status)] == Staged(scene, state, first, status).actions
  {
    var db := Staged(scene, state, first, second);
    assert db.actions[scene.first.id := scene.first.(status := status)] == Staged(scene, state, status, second).actions;
    assert db.actions[scene.second.id := scene.second.(status := status)] == Staged(scene, state, first, status).actions;
  }

  lemma SetStateOfArrived(scene: Scene, state: IncidentState, to: IncidentState)
    ensures Arrived(scene, state).incidents[INCIDENT := Subject(scene, to)] == Arrived(scene, to).incidents
  {
  }

  lemma Gated(scene: Scene, action: Action)
    requires Suitable(scene, action)
    ensures DecisionOn(scene, action).kind == RequireApproval && DecisionOn(scene, action).action == action.id
    ensures Policy.StatusFromDecision(DecisionOn(scene, action)) == Awaiting
  {
    Policy.EvaluateGatesEverything(scene.cfg.catalog, scene.cfg.topology, action, scene.environment, false);
  }

  // ----- Triage

  lemma Collected(scene: Scene)
    requires Possible(scene)
    ensures var w := At(Arrived(scene, Detected), []);
            Finish(scene.cfg, w, TriageRead(Subject(scene, Detected)), Answers(scene))
            == Finish(scene.cfg, At(Arrived(scene, Triaging), []), TriageCollected(Subject(scene, Triaging)), Answers(scene))
  {
    hide Finish;
    var w := At(Arrived(scene, Detected), []);
    SetStateOfArrived(scene, Detected, Triaging);
    FinishStep(scene.cfg, w, TriageRead(Subject(scene, Detected)), At(Arrived(scene, Triaging), []), TriageCollected(Subject(scene, Triaging)), Answers(scene));
  }

  lemma Generated2(scene: Scene)
    requires Possible(scene)
    ensures var w := At(Arrived(scene, Triaging), []);
            Finish(scene.cfg, w, TriageCollected(Subject(scene, Triaging)), Answers(scene))
            == Finish(scene.cfg, At(Staged(scene, Triaging, Proposed, Proposed), []), TriageProposed(Subject(scene, Triaging), [scene.first, scene.second]), Answers(scene))
  {
    hide Finish;
    var w := At(Arrived(scene, Triaging), []);
    var both := [scene.first, scene.second];
    assert both[..1] == [scene.first] && both[..1][..0] == [];
    assert SaveCandidateActions(w.db, []) == w.db;
    assert SaveCandidateActions(w.db, [scene.first]) == w.db.(actions := map[scene.first.id := scene.first]);
    assert SaveCandidateActions(w.db, both) == Staged(scene, Triaging, Proposed, Proposed);
    FinishStep(scene.cfg, w, TriageCollected(Subject(scene, Triaging)), At(Staged(scene, Triaging, Proposed, Proposed), []),
               TriageProposed(Subject(scene, Triaging), both), Answers(scene));
  }

  lemma Proposed2(scene: Scene)
    requires Possible(scene)
    ensures Finish(scene.cfg, At(Staged(scene, Triaging, Proposed, Proposed), []), TriageProposed(Subject(scene, Triaging), [scene.first, scene.second]), Answers(scene))
            == Finish(scene.cfg, At(Staged(scene, ActionProposed, Proposed, Proposed), []),
                      Evaluating(Subject(scene, ActionProposed), [scene.first, scene.second], []), Answers(scene))
  {
    hide Finish;
    var both := [scene.first, scene.second];
    assert both[..1] == [scene.first] && both[..1][..0] == [];
    assert Evaluable([]) == [];
    assert Evaluable([scene.first]) == [scene.first];
    assert Evaluable(both) == both;
    SetStateOfArrived(scene, Triaging, ActionProposed);
    FinishStep(scene.cfg, At(Staged(scene, Triaging, Proposed, Proposed), []), TriageProposed(Subject(scene, Triaging), both),
               At(Staged(scene, ActionProposed, Proposed, Proposed), []), Evaluating(Subject(scene, ActionProposed), both, []), Answers(scene));
  }

  lemma Evaluated2(scene: Scene)
    requires Possible(scene)
    ensures Finish(scene.cfg, At(Staged(scene, ActionProposed, Proposed, Proposed), []),
                   Evaluating(Subject(scene, ActionProposed), [scene.first, scene.second], []), Answers(scene))
            == Finish(scene.cfg, At(Decided(scene, ActionProposed, Awaiting, Awaiting), []), Refreshing(INCIDENT, ActionProposed), Answers(scene))
  {
    hide Finish, Policy.Evaluate;
    var both, subject := [scene.first, scene.second], Subject(scene, ActionProposed);
    var d1, d2 := DecisionOn(scene, scene.first), DecisionOn(scene, scene.second);
    Gated(scene, scene.first);
    Gated(scene, scene.second);
    SetStatusOfStaged(scene, ActionProposed, Proposed, Proposed, Awaiting);
    SetStatusOfStaged(scene, ActionProposed, Awaiting, Proposed, Awaiting);
    AtEvaluating(scene.cfg, At(Staged(scene, ActionProposed, Proposed, Proposed), []), subject, both, [], Answers(scene));
    assert both[1..] == [scene.second] && [scene.second][1..] == [] && [] + [d1] == [d1] && [d1] + [d2] == [d1, d2];
    AtEvaluating(scene.cfg, At(Staged(scene, ActionProposed, Awaiting, Proposed), []), subject, [scene.second], [d1], Answers(scene));
    AtEvaluating(scene.cfg, At(Staged(scene, ActionProposed, Awaiting, Awaiting), []), subject, [], [d1, d2], Answers(scene));
    SavedDecisions(scene);
  }

  lemma SavedDecisions(scene: Scene)
    requires Possible(scene)
    ensures SavePolicyDecisions(Staged(scene, ActionProposed, Awaiting, Awaiting), [DecisionOn(scene, scene.first), DecisionOn(scene, scene.second)])
            == Decided(scene, ActionProposed, Awaiting, Awaiting)
  {
    hide Policy.Evaluate;
    Gated(scene, scene.first);
    Gated(scene, scene.second);
    var db := Staged(scene, ActionProposed, Awaiting, Awaiting);
    var d1, d2 := DecisionOn(scene, scene.first), DecisionOn(scene, scene.second);
    assert [d1, d2][..1] == [d1] && [d1][..0] == [];
    assert SavePolicyDecisions(db, []) == db;
    assert SavePolicyDecisions(db, [d1]) == db.(decisions := map[scene.first.id := d1]);
  }

  lemma TriageEnds(scene: Scene)
    requires Possible(scene)
    ensures Finish(scene.cfg, At(Arrived(scene, Detected), []), TriageRead(Subject(scene, Detected)), Answers(scene))
            == Ending(At(Decided(scene, AwaitingApproval, Awaiting, Awaiting), []), true)
  {
    hide Finish, DecisionOn;
    Collected(scene);
    Generated2(scene);
    Proposed2(scene);
    Evaluated2(scene);
    var w := At(Decided(scene, ActionProposed, Awaiting, Awaiting), []);
    AtRefreshing(scene.cfg, w, INCIDENT, ActionProposed, Answers(scene));
    assert OpenAs(w.db, scene.first.id, INCIDENT, Awaiting);
    assert RefreshTarget(w.db, INCIDENT) == AwaitingApproval;
    AtMoving(scene.cfg, w, INCIDENT, ActionProposed, AwaitingApproval, Answers(scene));
    SetStateOfArrived(scene, ActionProposed, AwaitingApproval);
  }

  // ----- Approvals

  lemma ApproveFirst(scene: Scene)
    requires Possible(scene)
    ensures Finish(scene.cfg, At(Decided(scene, AwaitingApproval, Awaiting, Awaiting), []), ApproveRead(scene.first.(status := Awaiting), OPERATOR), Answers(scene))
            == Ending(At(Decided(scene, Approved, ActionApproved, Awaiting).(approvals := map[scene.first.id := [Grant(scene, scene.first)]]), []), true)
  {
    hide Finish, DecisionOn, ApprovalRecord;
    var w, record := At(Decided(scene, AwaitingApproval, Awaiting, Awaiting), []), Grant(scene, scene.first);
    GrantOf(scene, scene.first);
    AtApproveRead(scene.cfg, w, scene.first.(status := Awaiting), OPERATOR, Answers(scene));
    SetStatusOfStaged(scene, AwaitingApproval, Awaiting, Awaiting, ActionApproved);
    SetStateOfArrived(scene, AwaitingApproval, Approved);
    assert ApprovalsOf(w.db, scene.first.id) + [record] == [record];
    var decided := SetStatus(w.db, scene.first.id, ActionApproved).(approvals := w.db.approvals[scene.first.id := [record]]);
    assert decided == Decided(scene, AwaitingApproval, ActionApproved, Awaiting).(approvals := map[scene.first.id := [record]]);
    assert SetState(decided, INCIDENT, Approved) == Decided(scene, Approved, ActionApproved, Awaiting).(approvals := map[scene.first.id := [record]]);
    assert DecideApproval(w.db, INCIDENT, record, Awaiting, ActionApproved, Some(AwaitingApproval), Some(Approved))
        == Done(Decided(scene, Approved, ActionApproved, Awaiting).(approvals := map[scene.first.id := [record]]));
  }

  lemma GrantOf(scene: Scene, action: Action)
    ensures Grant(scene, action).action == action.id
  {
  }

  lemma ApproveSecond(scene: Scene)
    requires Possible(scene)
    ensures Finish(scene.cfg, At(Decided(scene, Approved, ActionApproved, Awaiting).(approvals := map[scene.first.id := [Grant(scene, scene.first)]]), []),
                   ApproveRead(scene.second.(status := Awaiting), OPERATOR), Answers(scene))
            == Ending(At(Granted(scene, Approved, ActionApproved, ActionApproved), []), true)
  {
    hide Finish, DecisionOn, ApprovalRecord;
    var db := Decided(scene, Approved, ActionApproved, Awaiting).(approvals := map[scene.first.id := [Grant(scene, scene.first)]]);
    var record := Grant(scene, scene.second);
    GrantOf(scene, scene.second);
    AtApproveRead(scene.cfg, At(db, []), scene.second.(status := Awaiting), OPERATOR, Answers(scene));
    SetStatusOfStaged(scene, Approved, ActionApproved, Awaiting, ActionApproved);
    SetStateOfArrived(scene, Approved, Approved);
    assert ApprovalsOf(db, scene.second.id) + [record] == [record];
    assert db.approvals[scene.second.id := [record]] == Granted(scene, Approved, ActionApproved, ActionApproved).approvals;
    var decided := SetStatus(db, scene.second.id, ActionApproved).(approvals := db.approvals[scene.second.id := [record]]);
    assert decided == Granted(scene, Approved, ActionApproved, ActionApproved);
    assert SetState(decided, INCIDENT, Approved) == decided;
    assert DecideApproval(db, INCIDENT, record, Awaiting, ActionApproved, Some(Approved), Some(Approved))
        == Done(Granted(scene, Approved, ActionApproved, ActionApproved));
  }

  // ----- Execution

  /** An approved action is let through to its claim as long as it has no execution. */
  lemma Admitted(scene: Scene, db: Database, action: Action)
    requires Possible(scene) && (action == scene.first || action == scene.second)
    requires db.decisions == Granted(scene, Approved, Awaiting, Awaiting).decisions
    requires db.approvals == Granted(scene, Approved, Awaiting, Awaiting).approvals
    requires INCIDENT in db.incidents && db.incidents[INCIDENT].environment == scene.environment
    requires forall r :: r in db.executions ==> db.executions[r].action != action.id
    ensures var ready, w := action.(status := ActionApproved), At(db, []);
            && MayExecute(scene.cfg, ready) && HistoryAllows(scene.cfg, w, ready) && StatusAllows(scene.cfg, ready)
            && CertificateFor(w, ready) == Some(Certificate(Grant(scene, action), DecisionOn(scene, action).rule, 0))
            && InScope(ready, db.incidents[INCIDENT], scene.cfg.catalog[ready.actionType])
            && E.Current(EvidenceOf(scene.cfg, ready, 0), 0)
  {
    hide DecisionOn, Digest.ActionApprovalDigest;
    var ready := action.(status := ActionApproved);
    NothingBlocks(db, action.id, CooldownOf(scene.cfg, scene.cfg.catalog[action.actionType]), 0);
    var rule := DecisionOn(scene, action).rule;
    DigestIgnoresStatus(ready, action.(status := Awaiting), rule);
    OnlyRecordDecides(Grant(scene, action), Digest.ActionApprovalDigest(ready, rule), rule, 0);
  }

  lemma NothingBlocks(db: Database, a: Id, cooldown: int, now: int)
    requires forall r :: r in db.executions ==> db.executions[r].action != a
    ensures !Duplicate(db, a, cooldown, now) && Attempts(db, a) == 0
  {
    var records := set r | r in db.executions && db.executions[r].action == a;
    assert forall r :: r !in records;
    assert records == {};
  }

  lemma OnlyRecordDecides(record: Approval, digest: string, rule: string, now: int)
    requires record.approved && record.expiresAt.Some? && record.expiresAt.value > now && record.digest == digest && record.policy == rule
    ensures ValidApproval([record], digest, rule, now) == Some(record)
  {
  }

  function Claimed(scene: Scene, action: Action): Execution {
    ClaimedRecord(action, OPERATOR, Answers(scene), 0)
  }

  function Proof(scene: Scene, action: Action): Certificate {
    Certificate(Grant(scene, action), DecisionOn(scene, action).rule, 0)
  }

  /** The log after the first execution. */
  function Called(scene: Scene): seq<Dispatch> {
    [ExecuteCall(scene.first.(status := ActionApproved), scene.first.id, Proof(scene, scene.first))]
  }

  function Executed(scene: Scene, state: IncidentState, first: ActionStatus, status: ExecutionStatus): Database {
    Granted(scene, state, first, ActionApproved).(executions := map[scene.first.id := Claimed(scene, scene.first).(status := status)])
  }

  lemma FirstClaimed(scene: Scene)
    requires Possible(scene)
    ensures ClaimExecution(Granted(scene, Approved, ActionApproved, ActionApproved), INCIDENT, scene.first.id, Claimed(scene, scene.first))
            == Done(Executed(scene, ExecutingAction, Executing, ExecStarted))
  {
    hide DecisionOn, Grant;
    SetStatusOfStaged(scene, Approved, ActionApproved, ActionApproved, Executing);
    SetStateOfArrived(scene, Approved, ExecutingAction);
  }

  lemma FirstReady(scene: Scene)
    requires Possible(scene)
    ensures var ready, w := scene.first.(status := ActionApproved), At(Granted(scene, Approved, ActionApproved, ActionApproved), []);
            Finish(scene.cfg, w, ExecRead(ready, OPERATOR), Answers(scene))
            == Finish(scene.cfg, At(Executed(scene, ExecutingAction, Executing, ExecStarted), []),
                      Dispatching(ready, Claimed(scene, scene.first), Proof(scene, scene.first), 0), Answers(scene))
  {
    hide Finish, DecisionOn, Grant, HistoryAllows, StatusAllows, CertificateFor, InScope, ClaimExecution, Executed;
    var ready, db := scene.first.(status := ActionApproved), Granted(scene, Approved, ActionApproved, ActionApproved);
    var w := At(db, []);
    Admitted(scene, db, scene.first);
    AtExecRead(scene.cfg, w, ready, OPERATOR, Answers(scene));
    AtExecListed(scene.cfg, w, ready, OPERATOR, Answers(scene));
    AtExecCleared(scene.cfg, w, ready, OPERATOR, Proof(scene, scene.first), Answers(scene));
    AtExecReady(scene.cfg, w, ready, OPERATOR, Proof(scene, scene.first), Answers(scene));
    FirstClaimed(scene);
    assert ClaimedRecord(ready, OPERATOR, Answers(scene), 0) == Claimed(scene, scene.first);
  }

  /** The first action is dispatched, refused, and its incident failed. */
  lemma FirstEnds(scene: Scene)
    requires Possible(scene)
    ensures Finish(scene.cfg, At(Granted(scene, Approved, ActionApproved, ActionApproved), []), ExecRead(scene.first.(status := ActionApproved), OPERATOR), Answers(scene))
            == Ending(At(Executed(scene, FailedRemediation, Failed, ExecFailed), Called(scene)), true)
  {
    hide Finish, DecisionOn, Grant;
    var ready, failed := scene.first.(status := ActionApproved), Claimed(scene, scene.first).(status := ExecFailed);
    FirstReady(scene);
    AtDispatching(scene.cfg, At(Executed(scene, ExecutingAction, Executing, ExecStarted), []), ready, Claimed(scene, scene.first), Proof(scene, scene.first), 0, Answers(scene));
    assert [] + Called(scene) == Called(scene);
    var w := At(Executed(scene, ExecutingAction, Executing, ExecStarted), Called(scene));
    AtSaving(scene.cfg, w, ready, failed, ExecutingAction, Answers(scene));
    assert w.db.executions[scene.first.id := failed] == map[scene.first.id := failed];
    AtMarking(scene.cfg, At(Executed(scene, ExecutingAction, Executing, ExecFailed), Called(scene)), ready, failed, ExecutingAction, Answers(scene));
    SetStatusOfStaged(scene, ExecutingAction, Executing, ActionApproved, Failed);
    AtSettling(scene.cfg, At(Executed(scene, ExecutingAction, Failed, ExecFailed), Called(scene)), ready, failed, ExecutingAction, Answers(scene));
    SetStateOfArrived(scene, ExecutingAction, FailedRemediation);
  }

  lemma Escalates(scene: Scene)
    ensures Finish(scene.cfg, At(Executed(scene, FailedRemediation, Failed, ExecFailed), Called(scene)), Moving(INCIDENT, FailedRemediation, Escalated), Answers(scene))
            == Ending(At(Executed(scene, Escalated, Failed, ExecFailed), Called(scene)), true)
  {
    hide Finish, DecisionOn, Grant;
    AtMoving(scene.cfg, At(Executed(scene, FailedRemediation, Failed, ExecFailed), Called(scene)), INCIDENT, FailedRemediation, Escalated, Answers(scene));
    SetStateOfArrived(scene, FailedRemediation, Escalated);
  }

  // ----- The run

  /** The process is serving and no call is in progress. */
  function Quiet(w: World): State {
    State(w, Serving, map[])
  }

  /** A call that is started, and left alone to its end. */
  lemma CallLeads(cfg: Config, w: World, thread: Thread, oracle: Oracle) returns (n: nat)
    requires Startable(cfg, w, thread)
    ensures Leads(cfg, Quiet(w), Quiet(Finish(cfg, w, thread, oracle).world), n)
  {
    hide Finish, Startable, ThreadStep, Leads, StartedExecutions;
    var started := State(w, Serving, map[0 := thread]);
    assert StepTo(cfg, Quiet(w), started, Start(0, thread));
    var k := FinishIsARun(cfg, started, 0, oracle);
    assert started.threads - {0} == map[];
    LeadsOn(cfg, Quiet(w), started, Quiet(Finish(cfg, w, thread, oracle).world), k);
    n := k + 1;
  }

  lemma Booted(scene: Scene) returns (n: nat)
    ensures Leads(scene.cfg, State(At(EMPTY, []), Down, map[]), Quiet(At(Arrived(scene, Detected), [])), n)
  {
    hide ThreadStep, Startable, Leads;
    var down, booted, serving := State(At(EMPTY, []), Down, map[]), State(At(EMPTY, []), Recovering([]), map[]), Quiet(At(EMPTY, []));
    var arrived := Quiet(At(Arrived(scene, Detected), []));
    assert StepTo(scene.cfg, down, booted, Boot([]));
    assert StepTo(scene.cfg, booted, serving, Serve);
    assert StepTo(scene.cfg, serving, arrived, Ingest(Subject(scene, Detected)));
    hide StepTo;
    n := OneStep(scene.cfg, serving, arrived);
    LeadsOn(scene.cfg, booted, serving, arrived, n);
    LeadsOn(scene.cfg, down, booted, arrived, n + 1);
    n := n + 2;
  }

  lemma OperatorIsNamed()
    ensures Nonblank(OPERATOR)
  {
    assert Digest.TrimLeft(OPERATOR) == OPERATOR;
    assert Digest.TrimRight(OPERATOR) == OPERATOR;
  }

  /** From boot to both actions approved. */
  lemma LeadsToApproved(scene: Scene) returns (n: nat)
    requires Possible(scene)
    ensures Leads(scene.cfg, State(At(EMPTY, []), Down, map[]), Quiet(At(Granted(scene, Approved, ActionApproved, ActionApproved), [])), n)
  {
    hide Finish, DecisionOn, Grant, Leads, Nonblank;
    var init := State(At(EMPTY, []), Down, map[]);
    var arrived, decided := At(Arrived(scene, Detected), []), At(Decided(scene, AwaitingApproval, Awaiting, Awaiting), []);
    var half := At(Decided(scene, Approved, ActionApproved, Awaiting).(approvals := map[scene.first.id := [Grant(scene, scene.first)]]), []);
    var approved := At(Granted(scene, Approved, ActionApproved, ActionApproved), []);
    OperatorIsNamed();
    TriageEnds(scene);
    ApproveFirst(scene);
    ApproveSecond(scene);
    n := Booted(scene);
    var k := CallLeads(scene.cfg, arrived, TriageRead(Subject(scene, Detected)), Answers(scene));
    LeadsFurther(scene.cfg, init, Quiet(arrived), Quiet(decided), n, k);
    n := n + k;
    k := CallLeads(scene.cfg, decided, ApproveRead(scene.first.(status := Awaiting), OPERATOR), Answers(scene));
    LeadsFurther(scene.cfg, init, Quiet(decided), Quiet(half), n, k);
    n := n + k;
    k := CallLeads(scene.cfg, half, ApproveRead(scene.second.(status := Awaiting), OPERATOR), Answers(scene));
    LeadsFurther(scene.cfg, init, Quiet(half), Quiet(approved), n, k);
    n := n + k;
  }

  /** The tables when the incident has been escalated and its alert has fired again. */
  function Reopened(scene: Scene): Database {
    var db := Executed(scene, Escalated, Failed, ExecFailed);
    db.(incidents := map[INCIDENT := Subject(scene, Escalated), SUCCESSOR := Successor(scene)])
  }

  lemma LeadsToReopened(scene: Scene) returns (n: nat)
    requires Possible(scene)
    ensures Leads(scene.cfg, State(At(EMPTY, []), Down, map[]), Quiet(At(Reopened(scene), Called(scene))), n)
  {
    hide Finish, DecisionOn, Grant, Leads;
    var init := State(At(EMPTY, []), Down, map[]);
    var approved := At(Granted(scene, Approved, ActionApproved, ActionApproved), []);
    var failed := At(Executed(scene, FailedRemediation, Failed, ExecFailed), Called(scene));
    var escalated := At(Executed(scene, Escalated, Failed, ExecFailed), Called(scene));
    var reopened := At(Reopened(scene), Called(scene));
    FirstEnds(scene);
    Escalates(scene);
    n := LeadsToApproved(scene);
    assert OPERATOR != "";
    var k := CallLeads(scene.cfg, approved, ExecRead(scene.first.(status := ActionApproved), OPERATOR), Answers(scene));
    LeadsFurther(scene.cfg, init, Quiet(approved), Quiet(failed), n, k);
    n := n + k;
    k := CallLeads(scene.cfg, failed, Moving(INCIDENT, FailedRemediation, Escalated), Answers(scene));
    LeadsFurther(scene.cfg, init, Quiet(failed), Quiet(escalated), n, k);
    n := n + k;
    assert escalated.db.incidents[SUCCESSOR := Successor(scene)] == reopened.db.incidents;
    k := Ingested(scene.cfg, escalated, Successor(scene));
    LeadsFurther(scene.cfg, init, Quiet(escalated), Quiet(reopened), n, k);
    n := n + k;
  }

  lemma Ingested(cfg: Config, w: World, incident: Incident) returns (n: nat)
    requires incident.id !in w.db.incidents && incident.state == Detected
    ensures Leads(cfg, Quiet(w), Quiet(w.(db := w.db.(incidents := w.db.incidents[incident.id := incident]))), n)
  {
    hide ThreadStep, Startable, Leads, StartedExecutions;
    var after := Quiet(w.(db := w.db.(incidents := w.db.incidents[incident.id := incident])));
    assert StepTo(cfg, Quiet(w), after, Ingest(incident));
    n := OneStep(cfg, Quiet(w), after);
  }

  /** The second action is claimed although its incident is escalated. */
  function Revived(scene: Scene): Database {
    var db := Reopened(scene);
    db.(incidents := map[INCIDENT := Subject(scene, ExecutingAction), SUCCESSOR := Successor(scene)],
        actions := Staged(scene, Escalated, Failed, Executing).actions,
        executions := map[scene.first.id := Claimed(scene, scene.first).(status := ExecFailed), scene.second.id := Claimed(scene, scene.second)])
  }

  lemma SecondClaimed(scene: Scene)
    requires Possible(scene)
    ensures ClaimExecution(Reopened(scene), INCIDENT, scene.second.id, Claimed(scene, scene.second)) == Done(Revived(scene))
  {
    hide DecisionOn, Grant;
    var db := Reopened(scene);
    SetStatusOfStaged(scene, Escalated, Failed, ActionApproved, Executing);
    assert db.incidents[INCIDENT := Subject(scene, ExecutingAction)] == Revived(scene).incidents;
    assert db.executions[scene.second.id := Claimed(scene, scene.second)] == Revived(scene).executions;
  }

  lemma AdvanceLeads(cfg: Config, s: State, w': World, thread': Thread, choice: Choice) returns (n: nat)
    requires 0 in s.threads && ThreadStep(cfg, s.world, s.threads[0], choice) == Running(w', thread')
    ensures Leads(cfg, s, s.(world := w', threads := s.threads[0 := thread']), n)
  {
    hide ThreadStep, Leads;
    AdvanceNext(cfg, s, 0, choice);
    n := OneStep(cfg, s, s.(world := w', threads := s.threads[0 := thread']));
  }

  /** One call at a time: it works, and the process serves. */
  function Busy(w: World, thread: Thread): State {
    State(w, Serving, map[0 := thread])
  }

  lemma StepLeads(cfg: Config, s: State, w: World, thread: Thread, w': World, thread': Thread, choice: Choice, n: nat) returns (m: nat)
    requires Leads(cfg, s, Busy(w, thread), n) && ThreadStep(cfg, w, thread, choice) == Running(w', thread')
    ensures Leads(cfg, s, Busy(w', thread'), m)
  {
    hide ThreadStep, Leads;
    var k := AdvanceLeads(cfg, Busy(w, thread), w', thread', choice);
    assert map[0 := thread][0 := thread'] == map[0 := thread'];
    LeadsFurther(cfg, s, Busy(w, thread), Busy(w', thread'), n, k);
    m := n + k;
  }

  /** An admitted call reaches its claim. */
  lemma LeadsToReady(cfg: Config, w: World, ready: Action, certificate: Certificate) returns (n: nat)
    requires ready.status == ActionApproved && ready.id in w.db.actions && w.db.actions[ready.id] == ready && !w.killed
    requires MayExecute(cfg, ready) && HistoryAllows(cfg, w, ready) && StatusAllows(cfg, ready) && CertificateFor(w, ready) == Some(certificate)
    requires ready.incident in w.db.incidents && InScope(ready, w.db.incidents[ready.incident], cfg.catalog[ready.actionType])
    requires E.Current(EvidenceOf(cfg, ready, w.now), w.now)
    ensures Leads(cfg, Quiet(w), Busy(w, ExecReady(ready, OPERATOR, certificate)), n)
  {
    hide Leads, Digest.ActionApprovalDigest, ValidApproval, InScope, Duplicate, Attempts, E.Current;
    var s, read := Quiet(w), ExecRead(ready, OPERATOR);
    var listed, decided := ExecListed(ready, OPERATOR), ExecDecision(ready, OPERATOR, w.db.decisions[ready.id]);
    var cleared, armed := ExecCleared(ready, OPERATOR, certificate), ExecArmed(ready, OPERATOR, certificate);
    assert ThreadStep(cfg, w, read, NoChoice) == Running(w, listed);
    assert ThreadStep(cfg, w, listed, NoChoice) == Running(w, decided);
    assert ThreadStep(cfg, w, decided, NoChoice) == Running(w, cleared);
    assert ThreadStep(cfg, w, cleared, NoChoice) == Running(w, armed);
    assert ThreadStep(cfg, w, armed, NoChoice) == Running(w, ExecReady(ready, OPERATOR, certificate));
    n := StartLeads(cfg, w, ready);
    hide ThreadStep, MayExecute, HistoryAllows, StatusAllows, CertificateFor;
    n := StepLeads(cfg, s, w, read, w, listed, NoChoice, n);
    n := StepLeads(cfg, s, w, listed, w, decided, NoChoice, n);
    n := StepLeads(cfg, s, w, decided, w, cleared, NoChoice, n);
    n := StepLeads(cfg, s, w, cleared, w, armed, NoChoice, n);
    n := StepLeads(cfg, s, w, armed, w, ExecReady(ready, OPERATOR, certificate), NoChoice, n);
  }

  lemma StartLeads(cfg: Config, w: World, ready: Action) returns (n: nat)
    requires ready.id in w.db.actions && w.db.actions[ready.id] == ready && MayExecute(cfg, ready)
    ensures Leads(cfg, Quiet(w), Busy(w, ExecRead(ready, OPERATOR)), n)
  {
    hide ThreadStep, Leads, MayExecute;
    assert OPERATOR != "";
    assert Startable(cfg, w, ExecRead(ready, OPERATOR));
    assert StepTo(cfg, Quiet(w), Busy(w, ExecRead(ready, OPERATOR)), Start(0, ExecRead(ready, OPERATOR)));
    n := OneStep(cfg, Quiet(w), Busy(w, ExecRead(ready, OPERATOR)));
  }

  lemma ClaimStep(scene: Scene, w: World, ready: Action, certificate: Certificate)
    requires MayExecute(scene.cfg, ready)
    requires var record := ClaimedRecord(ready, OPERATOR, Answers(scene), w.now);
             record.id !in w.db.executions && ClaimExecution(w.db, ready.incident, ready.id, record).Done?
    ensures var record := ClaimedRecord(ready, OPERATOR, Answers(scene), w.now);
            ThreadStep(scene.cfg, w, ExecReady(ready, OPERATOR, certificate), Fresh(record.id))
            == Running(w.(db := ClaimExecution(w.db, ready.incident, ready.id, record).db), Dispatching(ready, record, certificate, 0))
  {
    hide ClaimExecution, MayExecute;
  }

  lemma LeadsToRevived(scene: Scene) returns (thread: Thread, n: nat)
    requires Possible(scene)
    ensures Leads(scene.cfg, Quiet(At(Reopened(scene), Called(scene))), Busy(At(Revived(scene), Called(scene)), thread), n)
  {
    hide DecisionOn, Grant, Leads, HistoryAllows, StatusAllows, CertificateFor, InScope, ClaimExecution;
    var ready, w := scene.second.(status := ActionApproved), At(Reopened(scene), Called(scene));
    AdmittedAnyLog(scene, Reopened(scene), Called(scene), scene.second);
    n := LeadsToReady(scene.cfg, w, ready, Proof(scene, scene.second));
    SecondClaimed(scene);
    var claimed := Claimed(scene, scene.second);
    assert claimed == ClaimedRecord(ready, OPERATOR, Answers(scene), 0) && claimed.id !in w.db.executions;
    thread := Dispatching(ready, claimed, Proof(scene, scene.second), 0);
    ClaimStep(scene, w, ready, Proof(scene, scene.second));
    hide ThreadStep, Claimed;
    n := StepLeads(scene.cfg, Quiet(w), w, ExecReady(ready, OPERATOR, Proof(scene, scene.second)), At(Revived(scene), Called(scene)), thread, Fresh(claimed.id), n);
  }

  /** The checks do not read the dispatch log. */
  lemma AdmittedAnyLog(scene: Scene, db: Database, log: seq<Dispatch>, action: Action)
    requires Possible(scene) && (action == scene.first || action == scene.second)
    requires db.decisions == Granted(scene, Approved, Awaiting, Awaiting).decisions
    requires db.approvals == Granted(scene, Approved, Awaiting, Awaiting).approvals
    requires INCIDENT in db.incidents && db.incidents[INCIDENT].environment == scene.environment
    requires forall r :: r in db.executions ==> db.executions[r].action != action.id
    ensures var ready, w := action.(status := ActionApproved), At(db, log);
            && MayExecute(scene.cfg, ready) && HistoryAllows(scene.cfg, w, ready) && StatusAllows(scene.cfg, ready)
            && CertificateFor(w, ready) == Some(Proof(scene, action))
            && InScope(ready, db.incidents[INCIDENT], scene.cfg.catalog[ready.actionType])
            && E.Current(EvidenceOf(scene.cfg, ready, 0), 0)
  {
    hide DecisionOn, Digest.ActionApprovalDigest, ValidApproval, Duplicate, Attempts, InScope;
    Admitted(scene, db, action);
  }

  /** States reached in steps lie on a path. */
  lemma {:induction false} PathOf(cfg: Config, s: State, s': State, n: nat) returns (path: seq<State>)
    requires Leads(cfg, s, s', n)
    ensures path != [] && path[0] == s && path[|path| - 1] == s'
    ensures forall k :: 0 < k < |path| ==> StepAt(cfg, path, k)
    decreases n
  {
    hide Next;
    if n == 0 {
      path := [s];
    } else {
      var m :| Next(cfg, s, m) && Leads(cfg, m, s', n - 1);
      var rest := PathOf(cfg, m, s', n - 1);
      path := [s] + rest;
      forall k | 0 < k < |path| ensures StepAt(cfg, path, k) {
        if k > 1 {
          assert StepAt(cfg, rest, k - 1);
        }
      }
    }
  }

  lemma JoinPaths(cfg: Config, first: seq<State>, second: seq<State>) returns (run: seq<State>)
    requires first != [] && second != [] && first[|first| - 1] == second[0] && Init(first[0])
    requires forall k :: 0 < k < |first| ==> StepAt(cfg, first, k)
    requires forall k :: 0 < k < |second| ==> StepAt(cfg, second, k)
    ensures Run(cfg, run) && |run| == |first| + |second| - 1
    ensures run[|first| - 1] == first[|first| - 1] && run[|run| - 1] == second[|second| - 1]
  {
    hide Next, Init;
    run := first + second[1..];
    forall k | 0 < k < |run| ensures StepAt(cfg, run, k) {
      if k < |first| {
        assert StepAt(cfg, first, k);
      } else {
        assert StepAt(cfg, second, k - |first| + 1);
      }
    }
  }

  /** Both actions of an incident are approved, the first one fails, the incident is escalated, its alert
      fires again and opens another one. Then the claim on the second action takes the escalated incident
      back to executing: a terminal incident is revived, and one alert has two open incidents. */
  lemma ClaimRevivesIncident(scene: Scene) returns (run: seq<State>, k: nat)
    requires Possible(scene)
    ensures Run(scene.cfg, run) && k < |run|
    ensures var before, after := run[k].world.db, run[|run| - 1].world.db;
            && DbInv(before) && DbInv(after)
            && before.incidents == map[INCIDENT := Subject(scene, Escalated), SUCCESSOR := Successor(scene)]
            && before.actions == map[scene.first.id := scene.first.(status := Failed), scene.second.id := scene.second.(status := ActionApproved)]
            && ClaimExecution(before, INCIDENT, scene.second.id, Claimed(scene, scene.second)) == Done(after)
            && INCIDENT in after.incidents && after.incidents[INCIDENT] == Subject(scene, ExecutingAction)
            && Intake.OneOpen(before.incidents, scene.alert) && !Intake.OneOpen(after.incidents, scene.alert)
  {
    hide Leads, DecisionOn, Grant, ClaimExecution, Run, StepAt, Init, DbInv;
    var n := LeadsToReopened(scene);
    var thread, m := LeadsToRevived(scene);
    var first := PathOf(scene.cfg, State(At(EMPTY, []), Down, map[]), Quiet(At(Reopened(scene), Called(scene))), n);
    var second := PathOf(scene.cfg, Quiet(At(Reopened(scene), Called(scene))), Busy(At(Revived(scene), Called(scene)), thread), m);
    StartsEmpty();
    run := JoinPaths(scene.cfg, first, second);
    k := |first| - 1;
    InvariantOfRun(scene.cfg, run, k);
    InvariantOfRun(scene.cfg, run, |run| - 1);
    SecondClaimed(scene);
    TwoOpen(scene);
  }

  lemma StartsEmpty()
    ensures Init(State(At(EMPTY, []), Down, map[]))
  {
  }

  lemma InvariantOfRun(cfg: Config, run: seq<State>, k: nat)
    requires Run(cfg, run) && k < |run|
    ensures DbInv(run[k].world.db)
  {
    InvariantHolds(cfg, run, k);
  }

  lemma TwoOpen(scene: Scene)
    ensures Intake.OneOpen(Reopened(scene).incidents, scene.alert) && !Intake.OneOpen(Revived(scene).incidents, scene.alert)
  {
    var after := Revived(scene).incidents;
    assert INCIDENT in after && SUCCESSOR in after && !Terminal(after[INCIDENT].state) && !Terminal(after[SUCCESSOR].state);
  }

  /** There is such a scene: two low-risk restarts of one queue. */
  lemma SceneExists() returns (scene: Scene)
    ensures Possible(scene)
  {
    var definition := Definition("restart", RISK_LOW, true, false, "", ["prod"], [], 0, 0);
    var item := E.EvidenceItem(1, Some(0), None);
    var cfg := Config(map["restart" := definition], map[], 0, 0, false, 1, false, (i: Id, t: int) => [item], 600);
    var first := Action(1, INCIDENT, "restart", "queue", "{}", RISK_LOW, [1], Proposed, 0);
    scene := Scene(cfg, "alert", "prod", first, first.(id := 2));
    assert |RISK_LOW| == 3 && |RISK_HIGH| == 4;
    assert E.LastWithId([item], 1, 0, 1) && E.Supported([item], 1, 600, 0);
    assert EvidenceOf(cfg, first, 0) == E.Evidence([item], [1], 600);
  }
}
