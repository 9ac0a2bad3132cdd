/** RecoverStartedExecutions over the executions found started at boot. */
module Recovery {
  import opened Collections
  import opened Domain
  import opened StateMachine
  import opened Tables
  import opened Protocol
  import opened ProtocolInvariant
  import opened ProtocolRuns
  import opened Completion

  function Reconciled(execution: Execution, oracle: Oracle, now: int): Execution {
    execution.(status := ReconciledStatus(oracle.reconciled(execution.action)), finishedAt := now)
  }

  /** Settle one started execution; failing to load its action or incident is an error. */
  ghost function RecoverOne(cfg: Config, w: World, execution: Execution, oracle: Oracle): Ending {
    if execution.action !in w.db.actions || w.db.actions[execution.action].incident !in w.db.incidents then Ending(w, false)
    else
      var action := w.db.actions[execution.action];
      Finish(cfg, w, Saving(action, Reconciled(execution, oracle, w.now), w.db.incidents[action.incident].state), oracle)
  }

  /** Settle one after the other; the first error ends the call. */
  ghost function RecoverAll(cfg: Config, w: World, todo: seq<Execution>, oracle: Oracle): Ending
    decreases todo
  {
    if todo == [] then Ending(w, true)
    else
      var ending := RecoverOne(cfg, w, todo[0], oracle);
      if ending.ok then RecoverAll(cfg, ending.world, todo[1..], oracle) else ending
  }

  // ----- What a thread past its save leaves alone

  /** No row is lost, no action moves to another incident. */
  ghost predicate SameRows(db: Database, db': Database) {
    && db'.executions == db.executions && db'.actions.Keys == db.actions.Keys && db'.incidents.Keys == db.incidents.Keys
    && forall a :: a in db.actions ==> db'.actions[a].incident == db.actions[a].incident && db'.actions[a].id == db.actions[a].id
  }

  ghost predicate Harmless(db: Database, write: Write) {
    write.Done? ==> SameRows(db, write.db)
  }

  lemma WritesKeepRows(db: Database)
    ensures SameRows(db, db)
    ensures forall i, from, to :: Harmless(db, Transition(db, i, from, to))
    ensures forall a, status :: Harmless(db, UpdateCandidateActionStatus(db, a, status))
    ensures forall r, verdict :: Harmless(db, SaveVerificationResult(db, r, verdict))
    ensures forall r :: Harmless(db, SaveRollbackRecord(db, r))
  {
  }

  ghost predicate RowsKept(w: World, outcome: Outcome) {
    !outcome.Blocked? ==> SameRows(w.db, outcome.world.db) && outcome.world.now == w.now
                          && (outcome.Running? ==> !outcome.thread.Saving?)
  }

  lemma RollbackKeepsRows(cfg: Config, w: World, thread: Thread, choice: Choice)
    requires Compensation(thread)
    ensures RowsKept(w, ThreadStep(cfg, w, thread, choice))
  {
    hide UpdateCandidateActionStatus, SaveRollbackRecord, SameRows;
    WritesKeepRows(w.db);
    match thread
    case Compensating(_) =>
    case RollbackSaved(_, _) =>
    case RollbackCalling(_, _) =>
    case RollbackDone(_, _) =>
    case RollbackMarking(_) =>
  }

  lemma StepKeepsRows(cfg: Config, w: World, thread: Thread, choice: Choice)
    requires AfterDispatch(thread) && !thread.Saving?
    ensures RowsKept(w, ThreadStep(cfg, w, thread, choice))
  {
    hide HasRollbackPlan, Transition, UpdateCandidateActionStatus, SaveVerificationResult, SameRows, ActionStatusAfter,
         IncidentStateAfter, StepRollback;
    if Compensation(thread) {
      hide RowsKept;
      RollbackKeepsRows(cfg, w, thread, choice);
    } else {
      WritesKeepRows(w.db);
      match thread
      case Moving(_, _, _) =>
      case Marking(_, _, _) =>
      case Settling(_, _, _) =>
      case Verifying(_, _) =>
      case Judged(_, _, _, _) =>
      case Concluding(_, _, _, _) =>
      case Unwinding(_, _, _, _) =>
    }
  }

  lemma {:induction false} FinishKeepsRows(cfg: Config, w: World, thread: Thread, oracle: Oracle)
    requires AfterDispatch(thread) && !thread.Saving?
    ensures var ending := Finish(cfg, w, thread, oracle);
            SameRows(w.db, ending.world.db) && ending.world.now == w.now
    decreases Stage(thread), Remaining(cfg, thread)
  {
    hide AfterDispatch, ThreadStep, Remaining;
    var choice := ChoiceOf(cfg, oracle, thread);
    StepKeepsRows(cfg, w, thread, choice);
    match ThreadStep(cfg, w, thread, choice)
    case Running(w', thread') =>
      Descends(cfg, w, thread, choice);
      RecoveryMoves(cfg, w, thread, choice);
      FinishKeepsRows(cfg, w', thread', oracle);
    case _ =>
  }

  /** Whatever else happens, settling an execution ends its record first. */
  lemma RecoverOneEndsRecord(cfg: Config, w: World, execution: Execution, oracle: Oracle)
    requires execution.action in w.db.actions && w.db.actions[execution.action].incident in w.db.incidents
    ensures var ending := RecoverOne(cfg, w, execution, oracle);
            && ending.world.db.executions == w.db.executions[execution.id := Reconciled(execution, oracle, w.now)]
            && SameRows(w.db.(executions := ending.world.db.executions), ending.world.db)
            && ending.world.now == w.now
  {
    hide Finish;
    var action := w.db.actions[execution.action];
    var from := w.db.incidents[action.incident].state;
    var reconciled := Reconciled(execution, oracle, w.now);
    var w1 := w.(db := w.db.(executions := w.db.executions[execution.id := reconciled]));
    FinishStep(cfg, w, Saving(action, reconciled, from), w1, Marking(action, reconciled, from), oracle);
    FinishKeepsRows(cfg, w1, Marking(action, reconciled, from), oracle);
  }

  // ----- Convergence of restarts

  ghost function StartedIds(db: Database): set<Id> {
    set r | r in db.executions && db.executions[r].status == ExecStarted
  }

  /** The listed executions can be loaded with their actions and incidents. */
  ghost predicate RowsLoadable(db: Database, todo: seq<Execution>) {
    && (forall r :: r in db.executions ==> db.executions[r].id == r)
    && (forall k :: 0 <= k < |todo| ==> Loadable(db, todo[k]))
  }

  ghost predicate Loadable(db: Database, e: Execution) {
    && e.id in db.executions && db.executions[e.id].action == e.action
    && e.action in db.actions && db.actions[e.action].incident in db.incidents
  }

  /** Recovery ends the started records from the first on, and starts none. */
  lemma {:induction false} RecoverAllShrinks(cfg: Config, w: World, todo: seq<Execution>, oracle: Oracle)
    requires RowsLoadable(w.db, todo)
    ensures var ending := RecoverAll(cfg, w, todo, oracle);
            && StartedIds(ending.world.db) <= StartedIds(w.db)
            && (todo != [] ==> todo[0].id !in StartedIds(ending.world.db))
            && (ending.ok ==> forall k :: 0 <= k < |todo| ==> todo[k].id !in StartedIds(ending.world.db))
    decreases todo
  {
    hide RecoverOne;
    if todo != [] {
      RecoverOneEndsRecord(cfg, w, todo[0], oracle);
      var ending := RecoverOne(cfg, w, todo[0], oracle);
      if ending.ok {
        RecoverAllShrinks(cfg, ending.world, todo[1..], oracle);
        forall k | 0 <= k < |todo| && RecoverAll(cfg, w, todo, oracle).ok
          ensures todo[k].id !in StartedIds(RecoverAll(cfg, w, todo, oracle).world.db)
        {
          if k > 0 {
            assert todo[k] == todo[1..][k - 1];
          }
        }
      }
    }
  }

  /** Repeated restarts converge: if rows can be loaded and saved, recovery either leaves no started
      execution at all, or fails after reducing their number. */
  lemma RestartsConverge(cfg: Config, w: World, todo: seq<Execution>, oracle: Oracle)
    requires RowsLoadable(w.db, todo) && StartedExecutions(w.db, todo)
    ensures var ending := RecoverAll(cfg, w, todo, oracle);
            if ending.ok then StartedIds(ending.world.db) == {} else |StartedIds(ending.world.db)| < |StartedIds(w.db)|
  {
    hide RecoverAll;
    RecoverAllShrinks(cfg, w, todo, oracle);
    var before, after := StartedIds(w.db), StartedIds(RecoverAll(cfg, w, todo, oracle).world.db);
    if RecoverAll(cfg, w, todo, oracle).ok {
      forall r | r in before ensures r !in after {
        assert w.db.executions[r] in todo;
        var k :| 0 <= k < |todo| && todo[k] == w.db.executions[r];
        assert todo[k].id == r;
      }
      assert after == {};
    } else {
      assert todo != [] by {
        RecoverNothing(cfg, w, oracle);
      }
      assert todo[0].id in before;
      ProperSubsetSize(after, before, todo[0].id);
    }
  }

  lemma RecoverNothing(cfg: Config, w: World, oracle: Oracle)
    ensures RecoverAll(cfg, w, [], oracle) == Ending(w, true)
  {
  }

  // ----- A recovery without errors

  /** Where a reconciled execution leaves its action and incident. */
  function RecoveredStatus(cfg: Config, action: Action, oracle: Oracle): ActionStatus {
    match oracle.reconciled(action.id)
    case ReconciledSucceeded => if cfg.verifies then ResultStatus(ResultOf(cfg, action, oracle)) else Succeeded
    case _ => Failed
  }

  function RecoveredState(cfg: Config, action: Action, oracle: Oracle): IncidentState {
    match oracle.reconciled(action.id)
    case ReconciledSucceeded => if cfg.verifies then ResultState(ResultOf(cfg, action, oracle)) else VerifyingAction
    case ReconciledFailed => FailedRemediation
    case _ => Escalated
  }

  /** The rollback records after settling the action. */
  function RecoveredRollbacks(cfg: Config, db: Database, action: Action, oracle: Oracle): map<Id, Rollback> {
    if oracle.reconciled(action.id) == ReconciledSucceeded && cfg.verifies && RollsBack(cfg, action, oracle) then
      db.rollbacks[oracle.rollbackId(action.id) := RollbackOf(cfg, action, oracle)]
    else db.rollbacks
  }

  /** The settled execution, its action and its incident are rewritten; the rest is as before. */
  ghost predicate Settles(cfg: Config, db: Database, db': Database, execution: Execution, oracle: Oracle, now: int)
    requires execution.action in db.actions && db.actions[execution.action].incident in db.incidents
  {
    var action := db.actions[execution.action];
    var incident := db.incidents[action.incident];
    && db'.actions == db.actions[action.id := action.(status := RecoveredStatus(cfg, action, oracle))]
    && db'.incidents == db.incidents[action.incident := incident.(state := RecoveredState(cfg, action, oracle))]
    && db'.executions == db.executions[execution.id := Reconciled(execution, oracle, now)]
    && db'.rollbacks == RecoveredRollbacks(cfg, db, action, oracle)
  }

  /** May the execution be settled without an error? */
  ghost predicate Recoverable(db: Database, execution: Execution, oracle: Oracle) {
    && execution.id in db.executions && execution.action in db.actions
    && var action := db.actions[execution.action];
       && action.id == execution.action && action.status == Executing
       && action.incident in db.incidents && db.incidents[action.incident].state == ExecutingAction
       && oracle.rollbackId(action.id) !in db.rollbacks
  }

  /** From the final record to the settled incident. */
  lemma SettlingEnds(cfg: Config, w: World, execution: Execution, oracle: Oracle)
    requires Recoverable(w.db, execution, oracle)
    ensures var action := w.db.actions[execution.action];
            var record := Reconciled(execution, oracle, w.now);
            var saved := w.db.(executions := w.db.executions[execution.id := record]);
            var settled := SetState(SetStatus(saved, action.id, ActionStatusAfter(record.status)), action.incident, IncidentStateAfter(record.status));
            RecoverOne(cfg, w, execution, oracle)
            == if record.status == ExecSucceeded && cfg.verifies then
                 Finish(cfg, w.(db := settled), Verifying(action, record), oracle)
               else Ending(w.(db := settled), true)
  {
    var action := w.db.actions[execution.action];
    var record := Reconciled(execution, oracle, w.now);
    var w1 := w.(db := w.db.(executions := w.db.executions[execution.id := record]));
    var w2 := w1.(db := SetStatus(w1.db, action.id, ActionStatusAfter(record.status)));
    FinishSave(cfg, w, action, record, ExecutingAction, oracle);
    SettleStep(cfg, w2, action, record, oracle);
  }

  lemma FinishSave(cfg: Config, w: World, action: Action, record: Execution, from: IncidentState, oracle: Oracle)
    requires action.id in w.db.actions && record.action == action.id
    ensures var w1 := w.(db := w.db.(executions := w.db.executions[record.id := record]));
            var w2 := w1.(db := SetStatus(w1.db, action.id, ActionStatusAfter(record.status)));
            Finish(cfg, w, Saving(action, record, from), oracle) == Finish(cfg, w2, Settling(action, record, from), oracle)
  {
    hide Finish;
    var w1 := w.(db := w.db.(executions := w.db.executions[record.id := record]));
    var w2 := w1.(db := SetStatus(w1.db, action.id, ActionStatusAfter(record.status)));
    FinishStep(cfg, w, Saving(action, record, from), w1, Marking(action, record, from), oracle);
    FinishStep(cfg, w1, Marking(action, record, from), w2, Settling(action, record, from), oracle);
  }

  lemma SettleStep(cfg: Config, w: World, action: Action, record: Execution, oracle: Oracle)
    requires action.incident in w.db.incidents && w.db.incidents[action.incident].state == ExecutingAction
    requires record.status != ExecStarted && record.status != ExecTimedOut
    ensures var w' := w.(db := SetState(w.db, action.incident, IncidentStateAfter(record.status)));
            Finish(cfg, w, Settling(action, record, ExecutingAction), oracle)
            == if record.status == ExecSucceeded && cfg.verifies then Finish(cfg, w', Verifying(action, record), oracle)
               else Ending(w', true)
  {
    var w' := w.(db := SetState(w.db, action.incident, IncidentStateAfter(record.status)));
    var thread := Settling(action, record, ExecutingAction);
    assert ThreadStep(cfg, w, thread, NoChoice) == if record.status == ExecSucceeded && cfg.verifies
                                                   then Running(w', Verifying(action, record)) else Returned(w');
    hide ThreadStep, IncidentStateAfter, SetState;
  }

  /** Settling one execution whose incident is still executing never fails and has the right outcome. */
  lemma RecoverOneSettles(cfg: Config, w: World, execution: Execution, oracle: Oracle)
    requires Recoverable(w.db, execution, oracle)
    ensures var ending := RecoverOne(cfg, w, execution, oracle);
            && ending.ok && ending.world.now == w.now
            && Settles(cfg, w.db, ending.world.db, execution, oracle, w.now)
  {
    hide Finish, RecoverOne, CanRollBack, RollbackOf;
    var action := w.db.actions[execution.action];
    var record := Reconciled(execution, oracle, w.now);
    var saved := w.db.(executions := w.db.executions[execution.id := record]);
    var settled := SetState(SetStatus(saved, action.id, ActionStatusAfter(record.status)), action.incident, IncidentStateAfter(record.status));
    SettlingEnds(cfg, w, execution, oracle);
    RecoverOneKeepsClock(cfg, w, execution, oracle);
    if record.status == ExecSucceeded && cfg.verifies {
      VerificationIsTotal(cfg, w.(db := settled), action, record, oracle);
      VerifiedSettles(cfg, w.db, saved, settled, action, record.id, oracle);
    }
  }

  lemma RecoverOneKeepsClock(cfg: Config, w: World, execution: Execution, oracle: Oracle)
    requires Recoverable(w.db, execution, oracle)
    ensures RecoverOne(cfg, w, execution, oracle).world.now == w.now
  {
    RecoverOneEndsRecord(cfg, w, execution, oracle);
  }

  /** Verification overwrites the intermediate status and state. */
  lemma VerifiedSettles(cfg: Config, db: Database, saved: Database, settled: Database, action: Action, execution: Id, oracle: Oracle)
    requires action.id in db.actions && db.actions[action.id] == action && action.incident in db.incidents
    requires saved == db.(executions := saved.executions)
    requires settled == SetState(SetStatus(saved, action.id, Succeeded), action.incident, VerifyingAction)
    ensures var verified := VerifiedDb(cfg, settled, action, execution, oracle);
            var result := ResultOf(cfg, action, oracle);
            && verified.actions == db.actions[action.id := action.(status := ResultStatus(result))]
            && verified.incidents == db.incidents[action.incident := db.incidents[action.incident].(state := ResultState(result))]
            && verified.executions == saved.executions
            && verified.rollbacks == if RollsBack(cfg, action, oracle)
                                     then db.rollbacks[oracle.rollbackId(action.id) := RollbackOf(cfg, action, oracle)] else db.rollbacks
  {
    hide CanRollBack, ResultOf;
    var result := ResultOf(cfg, action, oracle);
    assert db.actions[action.id := action.(status := Succeeded)][action.id := action.(status := ResultStatus(result))]
        == db.actions[action.id := action.(status := ResultStatus(result))];
    var incident := db.incidents[action.incident];
    assert db.incidents[action.incident := incident.(state := VerifyingAction)][action.incident := incident.(state := ResultState(result))]
        == db.incidents[action.incident := incident.(state := ResultState(result))];
  }

  /** The executions can be settled one after the other: different actions, incidents and rollback ids. */
  ghost predicate Independent(db: Database, todo: seq<Execution>, oracle: Oracle) {
    && (forall k :: 0 <= k < |todo| ==> Recoverable(db, todo[k], oracle))
    && (forall j, k :: 0 <= j < k < |todo| ==> Apart(db, todo[j], todo[k], oracle))
  }

  ghost predicate Apart(db: Database, e: Execution, f: Execution, oracle: Oracle) {
    && e.id != f.id && e.action in db.actions && f.action in db.actions && e.action != f.action
    && db.actions[e.action].incident != db.actions[f.action].incident
    && oracle.rollbackId(e.action) != oracle.rollbackId(f.action)
  }

  lemma SettlingKeepsOthers(cfg: Config, db: Database, db': Database, e: Execution, f: Execution, oracle: Oracle, now: int)
    requires Recoverable(db, e, oracle) && Recoverable(db, f, oracle) && Apart(db, e, f, oracle)
    requires Settles(cfg, db, db', e, oracle, now)
    ensures Recoverable(db', f, oracle) && db'.actions[f.action] == db.actions[f.action]
  {
  }

  lemma IndependenceKept(cfg: Config, db: Database, db': Database, todo: seq<Execution>, oracle: Oracle, now: int)
    requires todo != [] && Independent(db, todo, oracle) && Settles(cfg, db, db', todo[0], oracle, now)
    ensures Independent(db', todo[1..], oracle)
    ensures forall k :: 0 < k < |todo| ==> todo[k].action in db'.actions && db'.actions[todo[k].action] == db.actions[todo[k].action]
  {
    hide Recoverable, Settles;
    forall k | 0 < k < |todo|
      ensures Recoverable(db', todo[k], oracle) && todo[k].action in db'.actions && db'.actions[todo[k].action] == db.actions[todo[k].action]
    {
      assert Recoverable(db, todo[k], oracle) && Recoverable(db, todo[0], oracle) && Apart(db, todo[0], todo[k], oracle);
      SettlingKeepsOthers(cfg, db, db', todo[0], todo[k], oracle, now);
      RecoverableRow(db', todo[k], oracle);
    }
    var rest := todo[1..];
    forall j, k | 0 <= j < k < |rest| ensures Apart(db', rest[j], rest[k], oracle) {
      assert Apart(db, todo[j + 1], todo[k + 1], oracle);
    }
  }

  lemma RecoverableRow(db: Database, e: Execution, oracle: Oracle)
    requires Recoverable(db, e, oracle)
    ensures e.action in db.actions
  {
  }

  /** The right outcome for one execution, told from the tables before and after. */
  ghost predicate Settled(cfg: Config, db: Database, db': Database, e: Execution, oracle: Oracle)
  {
    && e.action in db.actions && e.action in db'.actions && e.id in db'.executions
    && var action := db.actions[e.action];
       && action.incident in db'.incidents
       && db'.executions[e.id].status == ReconciledStatus(oracle.reconciled(e.action))
       && db'.actions[e.action] == action.(status := RecoveredStatus(cfg, action, oracle))
       && db'.incidents[action.incident].state == RecoveredState(cfg, action, oracle)
  }

  /** If every started execution's incident is still executing and no two share an incident, one call
      settles all of them with the right outcome, and touches no other action or incident. */
  lemma {:induction false} RecoverySettlesAll(cfg: Config, w: World, todo: seq<Execution>, oracle: Oracle)
    requires Independent(w.db, todo, oracle)
    ensures var ending := RecoverAll(cfg, w, todo, oracle);
            && ending.ok
            && (forall k :: 0 <= k < |todo| ==> Settled(cfg, w.db, ending.world.db, todo[k], oracle))
            && Others(w.db, ending.world.db, todo)
    decreases todo
  {
    hide RecoverOne, Settles, Recoverable, Settled, Others;
    if todo == [] {
      OthersSame(w.db);
    } else {
      assert Recoverable(w.db, todo[0], oracle);
      RecoverOneSettles(cfg, w, todo[0], oracle);
      var one := RecoverOne(cfg, w, todo[0], oracle).world;
      IndependenceKept(cfg, w.db, one.db, todo, oracle, w.now);
      RecoverySettlesAll(cfg, one, todo[1..], oracle);
      var after := RecoverAll(cfg, one, todo[1..], oracle).world.db;
      forall k | 0 <= k < |todo| ensures Settled(cfg, w.db, after, todo[k], oracle) {
        if k == 0 {
          FirstOutcome(cfg, w.db, one.db, after, todo, oracle, w.now);
        } else {
          assert todo[k] == todo[1..][k - 1];
          assert Apart(w.db, todo[0], todo[k], oracle) && Recoverable(w.db, todo[k], oracle);
          LaterOutcome(cfg, w.db, one.db, after, todo[k], oracle);
        }
      }
      OthersCompose(cfg, w.db, one.db, after, todo, oracle, w.now);
    }
  }

  /** Actions and incidents that no execution of the list refers to are unchanged. */
  ghost predicate Others(db: Database, db': Database, todo: seq<Execution>) {
    && (forall a :: a in db.actions && (forall k :: 0 <= k < |todo| ==> todo[k].action != a)
                    ==> a in db'.actions && db'.actions[a] == db.actions[a])
    && (forall i :: i in db.incidents && (forall k :: 0 <= k < |todo| ==> IncidentOf(db, todo[k]) != i)
                    ==> i in db'.incidents && db'.incidents[i] == db.incidents[i])
    && (forall r :: r in db.executions && (forall k :: 0 <= k < |todo| ==> todo[k].id != r)
                    ==> r in db'.executions && db'.executions[r] == db.executions[r])
  }

  ghost function IncidentOf(db: Database, e: Execution): Id {
    if e.action in db.actions then db.actions[e.action].incident else e.action
  }

  lemma OthersSame(db: Database)
    ensures Others(db, db, [])
  {
  }

  lemma FirstOutcome(cfg: Config, db: Database, one: Database, after: Database, todo: seq<Execution>, oracle: Oracle, now: int)
    requires todo != [] && Independent(db, todo, oracle)
    requires Recoverable(db, todo[0], oracle) && Settles(cfg, db, one, todo[0], oracle, now)
    requires Others(one, after, todo[1..])
    requires forall k :: 0 < k < |todo| ==> todo[k].action in one.actions && one.actions[todo[k].action] == db.actions[todo[k].action]
    ensures Settled(cfg, db, after, todo[0], oracle)
  {
    var rest := todo[1..];
    forall k | 0 <= k < |rest|
      ensures rest[k].action != todo[0].action && rest[k].id != todo[0].id && IncidentOf(one, rest[k]) != db.actions[todo[0].action].incident
    {
      assert Apart(db, todo[0], todo[k + 1], oracle);
    }
  }

  lemma LaterOutcome(cfg: Config, db: Database, one: Database, after: Database, e: Execution, oracle: Oracle)
    requires e.action in db.actions && e.action in one.actions && one.actions[e.action] == db.actions[e.action]
    requires Settled(cfg, one, after, e, oracle)
    ensures Settled(cfg, db, after, e, oracle)
  {
  }

  lemma OthersCompose(cfg: Config, db: Database, one: Database, after: Database, todo: seq<Execution>, oracle: Oracle, now: int)
    requires todo != [] && Recoverable(db, todo[0], oracle) && Settles(cfg, db, one, todo[0], oracle, now)
    requires Others(one, after, todo[1..])
    requires forall k :: 0 < k < |todo| ==> todo[k].action in one.actions && one.actions[todo[k].action] == db.actions[todo[k].action]
    ensures Others(db, after, todo)
  {
    hide Recoverable, Settles, Others;
    SettlesOne(cfg, db, one, todo[0], oracle, now);
    var rest := todo[1..];
    forall k | 0 <= k < |rest| ensures rest[k] == todo[k + 1] && IncidentOf(one, rest[k]) == IncidentOf(db, todo[k + 1]) {
      assert todo[k + 1].action in one.actions;
    }
    OthersJoin(db, one, after, todo);
  }

  lemma SettlesOne(cfg: Config, db: Database, one: Database, e: Execution, oracle: Oracle, now: int)
    requires Recoverable(db, e, oracle) && Settles(cfg, db, one, e, oracle, now)
    ensures Others(db, one, [e]) && one.actions.Keys == db.actions.Keys
  {
    assert IncidentOf(db, [e][0]) == db.actions[e.action].incident;
  }

  lemma OthersJoin(db: Database, one: Database, after: Database, todo: seq<Execution>)
    requires todo != [] && Others(db, one, [todo[0]]) && Others(one, after, todo[1..])
    requires one.actions.Keys == db.actions.Keys
    requires forall k :: 0 < k < |todo| ==> IncidentOf(one, todo[k]) == IncidentOf(db, todo[k])
    ensures Others(db, after, todo)
  {
    hide IncidentOf;
    var rest := todo[1..];
    assert forall k :: 0 <= k < |rest| ==> rest[k] == todo[k + 1];
  }

  /** ... and the call after that finds nothing to do. */
  lemma SecondRecoveryIsIdle(cfg: Config, w: World, todo: seq<Execution>, oracle: Oracle, again: seq<Execution>)
    requires RowsLoadable(w.db, todo) && StartedExecutions(w.db, todo) && Independent(w.db, todo, oracle)
    requires StartedExecutions(RecoverAll(cfg, w, todo, oracle).world.db, again)
    ensures again == []
  {
    hide RecoverAll;
    RecoverySettlesAll(cfg, w, todo, oracle);
    RestartsConverge(cfg, w, todo, oracle);
    var after := RecoverAll(cfg, w, todo, oracle).world.db;
    ListedIsStarted(after, again);
  }

  lemma ListedIsStarted(db: Database, todo: seq<Execution>)
    requires StartedExecutions(db, todo)
    ensures todo != [] ==> todo[0].id in StartedIds(db)
  {
  }

  // ----- From reachable states

  /** What a startup can rely on: generated rollback ids are new and never repeat. */
  ghost predicate RollbackIdsFresh(db: Database, oracle: Oracle) {
    && (forall a :: oracle.rollbackId(a) !in db.rollbacks)
    && (forall a, b :: oracle.rollbackId(a) == oracle.rollbackId(b) ==> a == b)
  }

  /** Every started execution's incident is executing, and none is shared. */
  ghost predicate Orderly(db: Database, todo: seq<Execution>) {
    && (forall k :: 0 <= k < |todo| ==> Executes(db, todo[k]))
    && (forall j, k :: 0 <= j < k < |todo| ==> IncidentOf(db, todo[j]) != IncidentOf(db, todo[k]))
  }

  ghost predicate Executes(db: Database, e: Execution) {
    IncidentOf(db, e) in db.incidents && db.incidents[IncidentOf(db, e)].state == ExecutingAction
  }

  /** In a reachable state orderly executions are independent: the invariant gives each its own action
      that is executing. */
  lemma OrderlyIsIndependent(cfg: Config, s: State, todo: seq<Execution>, oracle: Oracle)
    requires StateInv(cfg, s) && StartedExecutions(s.world.db, todo) && Orderly(s.world.db, todo) && RollbackIdsFresh(s.world.db, oracle)
    ensures Independent(s.world.db, todo, oracle)
  {
    hide ThreadsInv, OwnersDisjoint, PhaseInv, LogSound, CallsBounded, ApprovalsSound, RecordsMatchStatus, TargetsExclusive;
    var db := s.world.db;
    forall k | 0 <= k < |todo| ensures Recoverable(db, todo[k], oracle) {
      assert Executes(db, todo[k]);
    }
    forall j, k | 0 <= j < k < |todo| ensures Apart(db, todo[j], todo[k], oracle) {
      assert Recoverable(db, todo[j], oracle) && Recoverable(db, todo[k], oracle);
      assert !SameAction(db, todo[j].id, todo[k].id);
    }
  }

  /** ... so a startup after any run settles all of them with the right outcome. */
  lemma StartupSettlesAll(cfg: Config, run: seq<State>, k: nat, todo: seq<Execution>, oracle: Oracle)
    requires Run(cfg, run) && k < |run|
    requires StartedExecutions(run[k].world.db, todo) && Orderly(run[k].world.db, todo) && RollbackIdsFresh(run[k].world.db, oracle)
    ensures var w, ending := run[k].world, RecoverAll(cfg, run[k].world, todo, oracle);
            && ending.ok
            && (forall n :: 0 <= n < |todo| ==> Settled(cfg, w.db, ending.world.db, todo[n], oracle))
            && Others(w.db, ending.world.db, todo)
  {
    hide RecoverAll, Settled, Others, Independent, Orderly, RollbackIdsFresh, StartedExecutions;
    InvariantHolds(cfg, run, k);
    OrderlyIsIndependent(cfg, run[k], todo, oracle);
    RecoverySettlesAll(cfg, run[k].world, todo, oracle);
  }

  // ----- What recovery does not repair

  /** An incident that is executing at boot is moved on by recovery if and only if one of its executions
      is still started. */
  lemma OnlyStartedIsRecovered(cfg: Config, w: World, todo: seq<Execution>, oracle: Oracle, i: Id)
    requires StartedExecutions(w.db, todo) && Independent(w.db, todo, oracle)
    requires i in w.db.incidents && w.db.incidents[i].state == ExecutingAction
    ensures var after := RecoverAll(cfg, w, todo, oracle).world.db;
            && i in after.incidents
            && (after.incidents[i].state == ExecutingAction
                <==> forall r :: r in w.db.executions && w.db.executions[r].status == ExecStarted ==> IncidentOf(w.db, w.db.executions[r]) != i)
  {
    hide RecoverAll, Independent, Others, Settled;
    RecoverySettlesAll(cfg, w, todo, oracle);
    if k :| 0 <= k < |todo| && IncidentOf(w.db, todo[k]) == i {
      assert Settled(cfg, w.db, RecoverAll(cfg, w, todo, oracle).world.db, todo[k], oracle);
      SettledMoves(cfg, w.db, RecoverAll(cfg, w, todo, oracle).world.db, todo[k], oracle);
      assert todo[k] == w.db.executions[todo[k].id];
    } else {
      OthersKeep(w.db, RecoverAll(cfg, w, todo, oracle).world.db, todo, i);
      forall r | r in w.db.executions && w.db.executions[r].status == ExecStarted ensures IncidentOf(w.db, w.db.executions[r]) != i {
        assert w.db.executions[r] in todo;
      }
    }
  }

  lemma SettledMoves(cfg: Config, db: Database, db': Database, e: Execution, oracle: Oracle)
    requires Settled(cfg, db, db', e, oracle)
    ensures IncidentOf(db, e) in db'.incidents && db'.incidents[IncidentOf(db, e)].state != ExecutingAction
  {
  }

  lemma OthersKeep(db: Database, db': Database, todo: seq<Execution>, i: Id)
    requires Others(db, db', todo) && i in db.incidents && forall k :: 0 <= k < |todo| ==> IncidentOf(db, todo[k]) != i
    ensures i in db'.incidents && db'.incidents[i] == db.incidents[i]
  {
  }

  /** A crash at any moment and an undisturbed startup that succeeds lead back to serving. */
  lemma RestartIsARun(cfg: Config, s: State, todo: seq<Execution>, oracle: Oracle) returns (n: nat)
    requires StartedExecutions(s.world.db, todo) && RecoverAll(cfg, s.world, todo, oracle).ok
    ensures Leads(cfg, s, State(RecoverAll(cfg, s.world, todo, oracle).world, Serving, map[]), n)
  {
    hide RecoverAll, StartedExecutions, ThreadStep, Startable, Leads;
    var w := s.world;
    var down, booted := State(w, Down, map[]), State(w, Recovering(todo), map[]);
    var recovered := State(RecoverAll(cfg, w, todo, oracle).world, Recovering([]), map[]);
    var serving := recovered.(phase := Serving);
    assert StepTo(cfg, s, down, Crash);
    assert StepTo(cfg, down, booted, Boot(todo));
    assert StepTo(cfg, recovered, serving, Serve);
    var k := RecoveryIsARun(cfg, w, todo, oracle);
    var last := OneStep(cfg, recovered, serving);
    hide Next, StepTo;
    LeadsFurther(cfg, booted, recovered, serving, k, last);
    LeadsOn(cfg, down, booted, serving, k + last);
    LeadsOn(cfg, s, down, serving, k + last + 1);
    n := k + last + 2;
  }

  /** A crash between the save of the final record and the move of the incident is not repaired: from
      every such state of a run the process comes back to serving with no execution started, and the
      incident still executing. */
  lemma CrashAfterSaveIsNotRepaired(cfg: Config, run: seq<State>, k: nat, tid: int, todo: seq<Execution>, oracle: Oracle)
    returns (s': State, n: nat)
    requires Run(cfg, run) && k < |run|
    requires tid in run[k].threads && (run[k].threads[tid].Marking? || run[k].threads[tid].Settling?)
    requires var action, db := run[k].threads[tid].action, run[k].world.db;
             && action.incident in db.incidents && db.incidents[action.incident].state == ExecutingAction
             && OthersSettled(db, action)
    requires StartedExecutions(run[k].world.db, todo) && Orderly(run[k].world.db, todo) && RollbackIdsFresh(run[k].world.db, oracle)
    ensures Leads(cfg, run[k], s', n) && s'.phase.Serving? && s'.threads == map[]
    ensures var i, db := run[k].threads[tid].action.incident, s'.world.db;
            i in db.incidents && db.incidents[i].state == ExecutingAction && StartedIds(db) == {}
  {
    var s := run[k];
    var action := s.threads[tid].action;
    hide RecoverAll, Independent, StartedExecutions, Others, Settled, Leads, StartedIds, Run, RowsLoadable, StateInv, Orderly, RollbackIdsFresh, OthersSettled;
    InvariantHolds(cfg, run, k);
    OwnRecordFinished(cfg, s, tid);
    OrderlyLoads(cfg, s, todo);
    OrderlyIsIndependent(cfg, s, todo, oracle);
    OnlyStartedIsRecovered(cfg, s.world, todo, oracle, action.incident);
    RecoverySettlesAll(cfg, s.world, todo, oracle);
    RestartsConverge(cfg, s.world, todo, oracle);
    n := RestartIsARun(cfg, s, todo, oracle);
    s' := State(RecoverAll(cfg, s.world, todo, oracle).world, Serving, map[]);
  }

  /** No other action of the incident has a started execution. */
  ghost predicate OthersSettled(db: Database, action: Action) {
    forall r :: r in db.executions && db.executions[r].status == ExecStarted && db.executions[r].action != action.id
                ==> IncidentOf(db, db.executions[r]) != action.incident
  }

  lemma OwnRecordFinished(cfg: Config, s: State, tid: int)
    requires StateInv(cfg, s) && tid in s.threads && (s.threads[tid].Marking? || s.threads[tid].Settling?)
    requires OthersSettled(s.world.db, s.threads[tid].action)
    ensures forall r :: r in s.world.db.executions && s.world.db.executions[r].status == ExecStarted
                        ==> IncidentOf(s.world.db, s.world.db.executions[r]) != s.threads[tid].action.incident
  {
    hide OwnersDisjoint, PhaseInv, LogSound, CallsBounded, ApprovalsSound, RecordsMatchStatus, TargetsExclusive;
    var db, thread := s.world.db, s.threads[tid];
    assert ThreadInv(cfg, s.world, thread);
    forall r | r in db.executions && db.executions[r].status == ExecStarted ensures db.executions[r].action != thread.action.id {
      assert thread.Marking? && db.executions[r].action == thread.action.id ==> r == thread.execution.id;
    }
  }

  lemma OrderlyLoads(cfg: Config, s: State, todo: seq<Execution>)
    requires StateInv(cfg, s) && StartedExecutions(s.world.db, todo) && Orderly(s.world.db, todo)
    ensures RowsLoadable(s.world.db, todo)
  {
    hide ThreadsInv, OwnersDisjoint, PhaseInv, LogSound, CallsBounded, ApprovalsSound, RecordsMatchStatus, TargetsExclusive;
    forall k | 0 <= k < |todo| ensures Loadable(s.world.db, todo[k]) {
      assert Executes(s.world.db, todo[k]);
    }
  }

  // ----- Recovery as a run of the system

  /** The steps of a recovery that nobody disturbs lead from boot to the state computed here. */
  lemma {:induction false} RecoveryIsARun(cfg: Config, w: World, todo: seq<Execution>, oracle: Oracle) returns (n: nat)
    ensures var ending := RecoverAll(cfg, w, todo, oracle);
            var booted := State(w, Recovering(todo), map[]);
            Leads(cfg, booted, if ending.ok then State(ending.world, Recovering([]), map[]) else State(ending.world, Down, map[]), n)
    decreases todo
  {
    hide RecoverOne, Next, Leads;
    var booted, ending := State(w, Recovering(todo), map[]), RecoverAll(cfg, w, todo, oracle);
    if todo == [] {
      n := NoStep(cfg, booted);
    } else {
      var one := RecoverOne(cfg, w, todo[0], oracle);
      var m := if one.ok then State(one.world, Recovering(todo[1..]), map[]) else State(one.world, Down, map[]);
      var k := RecoverOneIsARun(cfg, w, todo, oracle);
      n := k;
      if one.ok {
        var j := RecoveryIsARun(cfg, one.world, todo[1..], oracle);
        LeadsFurther(cfg, booted, m, if ending.ok then State(ending.world, Recovering([]), map[]) else State(ending.world, Down, map[]), k, j);
        n := k + j;
      }
    }
  }

  lemma NoStep(cfg: Config, s: State) returns (n: nat)
    ensures Leads(cfg, s, s, n)
  {
    n := 0;
  }

  lemma RecoverOneIsARun(cfg: Config, w: World, todo: seq<Execution>, oracle: Oracle) returns (n: nat)
    requires todo != []
    ensures var one := RecoverOne(cfg, w, todo[0], oracle);
            Leads(cfg, State(w, Recovering(todo), map[]),
                  if one.ok then State(one.world, Recovering(todo[1..]), map[]) else State(one.world, Down, map[]), n)
  {
    hide Finish, ThreadStep, Startable, StartedExecutions, Leads;
    var booted, execution := State(w, Recovering(todo), map[]), todo[0];
    var status := oracle.reconciled(execution.action);
    if execution.action !in w.db.actions || w.db.actions[execution.action].incident !in w.db.incidents {
      assert StepTo(cfg, booted, State(w, Down, map[]), Reconcile(status, w.now));
      n := OneStep(cfg, booted, State(w, Down, map[]));
    } else {
      var action := w.db.actions[execution.action];
      var thread := Saving(action, Reconciled(execution, oracle, w.now), w.db.incidents[action.incident].state);
      var m := State(w, Recovering(todo[1..]), map[0 := thread]);
      assert StepTo(cfg, booted, m, Reconcile(status, w.now));
      var k := FinishIsARun(cfg, m, 0, oracle);
      assert m.threads - {0} == map[];
      LeadsOn(cfg, booted, m, Ended(m, Finish(cfg, w, thread, oracle).world, 0, !Finish(cfg, w, thread, oracle).ok), k);
      n := k + 1;
    }
  }
}
