/** A crash that no restart repairs, as a run from an empty store: the execution has succeeded and is
    recorded, and its incident still executes it when the process serves again. */
module Unrepaired {
  import opened Domain
  import opened StateMachine
  import opened Tables
  import opened Protocol
  import opened ProtocolRuns
  import opened Completion
  import opened Recovery
  import opened Revival

  /** The final record of the first action has been saved, and nothing after it. */
  function Saved(scene: Scene): World {
    At(Executed(scene, ExecutingAction, Executing, ExecSucceeded), Called(scene))
  }

  function Pending(scene: Scene): Thread {
    Marking(scene.first.(status := ActionApproved), Claimed(scene, scene.first).(status := ExecSucceeded), ExecutingAction)
  }

  /** The first action's claim, and its dispatch up to there. */
  lemma LeadsToSaved(scene: Scene) returns (n: nat)
    requires Possible(scene)
    ensures Leads(scene.cfg, State(At(EMPTY, []), Down, map[]), Busy(Saved(scene), Pending(scene)), n)
  {
    hide DecisionOn, Grant, Leads, HistoryAllows, StatusAllows, CertificateFor, InScope, ClaimExecution;
    var init, approved := State(At(EMPTY, []), Down, map[]), At(Granted(scene, Approved, ActionApproved, ActionApproved), []);
    var ready, proof, claimed := scene.first.(status := ActionApproved), Proof(scene, scene.first), Claimed(scene, scene.first);
    AdmittedAnyLog(scene, approved.db, [], scene.first);
    n := LeadsToApproved(scene);
    var k := LeadsToReady(scene.cfg, approved, ready, proof);
    LeadsFurther(scene.cfg, init, Quiet(approved), Busy(approved, ExecReady(ready, OPERATOR, proof)), n, k);
    n := n + k;
    FirstClaimed(scene);
    assert claimed == ClaimedRecord(ready, OPERATOR, Answers(scene), 0) && claimed.id !in approved.db.executions;
    ClaimStep(scene, approved, ready, proof);
    var w := At(Executed(scene, ExecutingAction, Executing, ExecStarted), []);
    hide ThreadStep, Claimed, Executed, Called;
    n := StepLeads(scene.cfg, init, approved, ExecReady(ready, OPERATOR, proof), w, Dispatching(ready, claimed, proof, 0), Fresh(claimed.id), n);
    n := DispatchLeads(scene, n);
  }

  /** From the claim on. */
  lemma DispatchLeads(scene: Scene, n: nat) returns (m: nat)
    requires Possible(scene)
    requires Leads(scene.cfg, State(At(EMPTY, []), Down, map[]),
                   Busy(At(Executed(scene, ExecutingAction, Executing, ExecStarted), []),
                        Dispatching(scene.first.(status := ActionApproved), Claimed(scene, scene.first), Proof(scene, scene.first), 0)), n)
    ensures Leads(scene.cfg, State(At(EMPTY, []), Down, map[]), Busy(Saved(scene), Pending(scene)), m)
  {
    hide Leads, ThreadStep, Claimed, Executed, Called, Proof;
    var init := State(At(EMPTY, []), Down, map[]);
    var ready, proof, claimed := scene.first.(status := ActionApproved), Proof(scene, scene.first), Claimed(scene, scene.first);
    var w := At(Executed(scene, ExecutingAction, Executing, ExecStarted), []);
    var called := At(Executed(scene, ExecutingAction, Executing, ExecStarted), Called(scene));
    DispatchSteps(scene, w, called);
    m := StepLeads(scene.cfg, init, w, Dispatching(ready, claimed, proof, 0), called, Calling(ready, claimed, proof, 0), NoChoice, n);
    m := StepLeads(scene.cfg, init, called, Calling(ready, claimed, proof, 0), called, Saving(ready, claimed.(status := ExecSucceeded), ExecutingAction), Answer(AdapterOk), m);
    m := StepLeads(scene.cfg, init, called, Saving(ready, claimed.(status := ExecSucceeded), ExecutingAction), Saved(scene), Pending(scene), NoChoice, m);
  }

  lemma DispatchSteps(scene: Scene, w: World, called: World)
    requires w == At(Executed(scene, ExecutingAction, Executing, ExecStarted), [])
    requires called == At(Executed(scene, ExecutingAction, Executing, ExecStarted), Called(scene))
    requires Possible(scene)
    ensures var ready, proof, claimed := scene.first.(status := ActionApproved), Proof(scene, scene.first), Claimed(scene, scene.first);
            && ThreadStep(scene.cfg, w, Dispatching(ready, claimed, proof, 0), NoChoice) == Running(called, Calling(ready, claimed, proof, 0))
            && ThreadStep(scene.cfg, called, Calling(ready, claimed, proof, 0), Answer(AdapterOk))
               == Running(called, Saving(ready, claimed.(status := ExecSucceeded), ExecutingAction))
            && ThreadStep(scene.cfg, called, Saving(ready, claimed.(status := ExecSucceeded), ExecutingAction), NoChoice) == Running(Saved(scene), Pending(scene))
  {
    hide DecisionOn, Grant;
    var saved := Claimed(scene, scene.first).(status := ExecSucceeded);
    assert called.db.executions[saved.id := saved] == map[saved.id := saved];
    assert [] + Called(scene) == Called(scene);
  }

  /** The hypotheses of CrashAfterSaveIsNotRepaired are met there. */
  lemma SavedIsOrderly(scene: Scene)
    ensures StartedExecutions(Saved(scene).db, []) && Orderly(Saved(scene).db, []) && RollbackIdsFresh(Saved(scene).db, Answers(scene))
    ensures OthersSettled(Saved(scene).db, scene.first.(status := ActionApproved))
  {
  }

  /** ... so a crash, a boot and a recovery end a run with the incident executing and no execution started. */
  lemma CrashLeavesIncidentExecuting(scene: Scene) returns (run: seq<State>, k: nat)
    requires Possible(scene)
    ensures Run(scene.cfg, run) && k < |run|
    ensures run[k] == Busy(Saved(scene), Pending(scene))
    ensures var last := run[|run| - 1];
            && last.phase.Serving? && last.threads == map[] && StartedIds(last.world.db) == {}
            && INCIDENT in last.world.db.incidents && last.world.db.incidents[INCIDENT].state == ExecutingAction
  {
    hide Leads, Run, StepAt, Init, Saved, StartedExecutions, Orderly, RollbackIdsFresh, OthersSettled, StartedIds;
    var init, saved := State(At(EMPTY, []), Down, map[]), Busy(Saved(scene), Pending(scene));
    var n := LeadsToSaved(scene);
    var first := PathOf(scene.cfg, init, saved, n);
    StartsEmpty();
    AsRun(scene.cfg, first);
    SavedIsOrderly(scene);
    SavedExecutes(scene);
    var s', m := CrashAfterSaveIsNotRepaired(scene.cfg, first, |first| - 1, 0, [], Answers(scene));
    var second := PathOf(scene.cfg, saved, s', m);
    run := JoinPaths(scene.cfg, first, second);
    k := |first| - 1;
  }

  lemma AsRun(cfg: Config, path: seq<State>)
    requires path != [] && Init(path[0]) && forall k :: 0 < k < |path| ==> StepAt(cfg, path, k)
    ensures Run(cfg, path)
  {
  }

  lemma SavedExecutes(scene: Scene)
    requires Possible(scene)
    ensures var db := Saved(scene).db;
            scene.first.incident == INCIDENT && INCIDENT in db.incidents && db.incidents[INCIDENT].state == ExecutingAction
  {
  }
}
