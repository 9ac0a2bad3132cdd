/** The invariant over whole runs with any number of calls, aborts, crashes and recoveries. */
module ProtocolRuns {
  import opened Domain
  import opened StateMachine
  import opened Tables
  import opened Protocol
  import opened ProtocolInvariant
  import opened ProtocolWrites
  import opened ProtocolSteps

  /** Program counters a thread started by recovery can reach. */
  predicate AfterDispatch(thread: Thread) {
    (PastClaim(thread) && !thread.Dispatching? && !thread.Calling?) || thread.Moving?
  }

  /** RollbackAction's program counters. */
  predicate Compensation(thread: Thread) {
    thread.Compensating? || thread.RollbackSaved? || thread.RollbackCalling? || thread.RollbackDone? || thread.RollbackMarking?
  }

  ghost predicate Pending(db: Database, execution: Execution) {
    execution.id in db.executions && db.executions[execution.id] == execution && execution.status == ExecStarted
  }

  ghost predicate PhaseInv(s: State) {
    match s.phase
    case Down => s.threads == map[]
    case Serving => true
    case Recovering(todo) =>
      && s.threads.Keys <= {0}
      && (forall k :: 0 <= k < |todo| ==> Pending(s.world.db, todo[k]))
      && (forall j, k :: 0 <= j < k < |todo| ==> todo[j].id != todo[k].id)
      && (0 in s.threads ==> && AfterDispatch(s.threads[0])
                             && forall k :: 0 <= k < |todo| ==> todo[k].action !in Owned(s.threads[0]))
  }

  ghost predicate ThreadsInv(cfg: Config, s: State) {
    forall t :: t in s.threads ==> ThreadInv(cfg, s.world, s.threads[t])
  }

  ghost predicate OwnersDisjoint(s: State) {
    forall t, u :: t in s.threads && u in s.threads && t != u ==> Owned(s.threads[t]) !! Owned(s.threads[u])
  }

  ghost predicate StateInv(cfg: Config, s: State) {
    WorldInv(cfg, s.world) && ThreadsInv(cfg, s) && OwnersDisjoint(s) && PhaseInv(s)
  }

  /** What every step of the system respects, whoever takes it. */
  ghost predicate Evolves(w: World, w': World) {
    exists own :: Guarantee(w, w', own)
  }

  // ----- One step of a call

  lemma UndecidedNotApproved(cfg: Config, w: World, a: Id)
    requires WorldInv(cfg, w) && a in w.db.actions && (a !in w.db.decisions || Recorded(w.db, a))
    ensures w.db.actions[a].status != ActionApproved
  {
    assert ApprovalsSoundFor(w.db, a) && RecordMatchesStatus(w.db, a);
    assert forall k :: 0 <= k < |ApprovalsOf(w.db, a)| ==> ApprovalsOf(w.db, a)[k] in ApprovalsOf(w.db, a);
  }

  /** What a thread owns exists and is not waiting to be claimed. */
  lemma OwnedFacts(cfg: Config, w: World, thread: Thread, a: Id)
    requires WorldInv(cfg, w) && ThreadInv(cfg, w, thread) && a in Owned(thread)
    ensures a in w.db.actions && w.db.actions[a].status != ActionApproved
  {
    hide WorldInv;
    if PastClaim(thread) {
    } else if thread.TriageProposed? {
      var k :| 0 <= k < |thread.actions| && thread.actions[k].id == a;
      assert Undecided(w.db, thread.actions[k], thread.actions[k].status);
      UndecidedNotApproved(cfg, w, a);
    } else {
      assert a !in w.db.decisions && a in w.db.actions by {
        if a in Ids(thread.todo) {
          var k :| 0 <= k < |thread.todo| && thread.todo[k].id == a;
          assert Undecided(w.db, thread.todo[k], Proposed);
        } else {
          var k :| 0 <= k < |thread.decided| && thread.decided[k].action == a;
          assert thread.decided[k].action in w.db.actions;
        }
      }
      UndecidedNotApproved(cfg, w, a);
    }
  }

  lemma OthersStable(cfg: Config, s: State, w': World, tid: int)
    requires StateInv(cfg, s) && tid in s.threads && Guarantee(s.world, w', Owned(s.threads[tid]))
    ensures forall t :: t in s.threads && t != tid ==> ThreadInv(cfg, w', s.threads[t])
  {
    hide WorldInv, Guarantee, ThreadInv, Owned, PhaseInv;
    forall t | t in s.threads && t != tid ensures ThreadInv(cfg, w', s.threads[t]) {
      Stable(cfg, s.world, w', Owned(s.threads[tid]), s.threads[t]);
    }
  }

  /** What a step comes to own was owned by nobody. */
  lemma AcquiredDisjoint(cfg: Config, w: World, mine: set<Id>, mine': set<Id>, other: Thread)
    requires WorldInv(cfg, w) && ThreadInv(cfg, w, other) && mine !! Owned(other) && Acquires(w.db, mine, mine')
    ensures mine' !! Owned(other)
  {
    hide WorldInv, ThreadInv, Owned;
    forall a | a in mine' && a in Owned(other) ensures false {
      OwnedFacts(cfg, w, other, a);
    }
  }

  lemma PendingKept(cfg: Config, s: State, w': World, tid: int)
    requires StateInv(cfg, s) && tid in s.threads && s.phase.Recovering?
    requires Guarantee(s.world, w', Owned(s.threads[tid]))
    ensures forall k :: 0 <= k < |s.phase.todo| ==> Pending(w'.db, s.phase.todo[k])
  {
    var todo := s.phase.todo;
    forall k | 0 <= k < |todo| ensures Pending(w'.db, todo[k]) {
      assert Pending(s.world.db, todo[k]);
      assert todo[k].action !in Owned(s.threads[tid]);
    }
  }

  /** A pending execution's action is being executed, so no step can acquire it. */
  lemma PendingNotAcquired(cfg: Config, w: World, execution: Execution, mine: set<Id>, mine': set<Id>)
    requires WorldInv(cfg, w) && Pending(w.db, execution) && execution.action !in mine && Acquires(w.db, mine, mine')
    ensures execution.action !in mine'
  {
    assert w.db.executions[execution.id].action in w.db.actions;
  }

  lemma RunningKeeps(cfg: Config, s: State, s': State, tid: int, choice: Choice)
    requires StateInv(cfg, s) && tid in s.threads
    requires var outcome := ThreadStep(cfg, s.world, s.threads[tid], choice);
             outcome.Running? && s' == s.(world := outcome.world, threads := s.threads[tid := outcome.thread])
    ensures StateInv(cfg, s') && Guarantee(s.world, s'.world, Owned(s.threads[tid]))
  {
    hide WorldInv, Guarantee, ThreadInv, Owned, ThreadStep, Pending, Acquires, PastClaim;
    var thread := s.threads[tid];
    ThreadStepGood(cfg, s.world, thread, choice);
    OthersStable(cfg, s, s'.world, tid);
    forall u | u in s.threads && u != tid ensures Owned(s'.threads[tid]) !! Owned(s.threads[u]) {
      AcquiredDisjoint(cfg, s.world, Owned(thread), Owned(s'.threads[tid]), s.threads[u]);
    }
    if s.phase.Recovering? {
      PendingKept(cfg, s, s'.world, tid);
      RecoveryMoves(cfg, s.world, thread, choice);
      forall k | 0 <= k < |s.phase.todo| ensures s.phase.todo[k].action !in Owned(s'.threads[0]) {
        PendingNotAcquired(cfg, s.world, s.phase.todo[k], Owned(thread), Owned(s'.threads[0]));
      }
    }
  }

  /** A thread of recovery never gets back to a dispatch. */
  lemma RollbackMoves(cfg: Config, w: World, thread: Thread, choice: Choice)
    requires Compensation(thread) && ThreadStep(cfg, w, thread, choice).Running?
    ensures AfterDispatch(ThreadStep(cfg, w, thread, choice).thread)
  {
    hide UpdateCandidateActionStatus, SaveRollbackRecord;
    match thread
    case Compensating(_) =>
    case RollbackSaved(_, _) =>
    case RollbackCalling(_, _) =>
    case RollbackDone(_, _) =>
    case RollbackMarking(_) =>
  }

  lemma RecoveryMoves(cfg: Config, w: World, thread: Thread, choice: Choice)
    requires AfterDispatch(thread) && ThreadStep(cfg, w, thread, choice).Running?
    ensures AfterDispatch(ThreadStep(cfg, w, thread, choice).thread)
  {
    hide Transition, UpdateCandidateActionStatus, SaveExecutionRecord, SaveVerificationResult, HasRollbackPlan, StepRollback,
         ActionStatusAfter, IncidentStateAfter;
    if Compensation(thread) {
      RollbackMoves(cfg, w, thread, choice);
    } else {
      match thread
      case Moving(_, _, _) =>
      case Saving(_, _, _) =>
      case Marking(_, _, _) =>
      case Settling(_, _, _) =>
      case Verifying(_, _) =>
      case Judged(_, _, _, _) =>
      case Concluding(_, _, _, _) =>
      case Unwinding(_, _, _, _) =>
    }
  }

  lemma EndingKeeps(cfg: Config, s: State, w': World, tid: int, failed: bool)
    requires StateInv(cfg, s) && tid in s.threads
    requires WorldInv(cfg, w') && Guarantee(s.world, w', Owned(s.threads[tid]))
    ensures StateInv(cfg, Ended(s, w', tid, failed))
  {
    hide WorldInv, Guarantee, ThreadInv, Owned, Pending, AfterDispatch;
    OthersStable(cfg, s, w', tid);
    if s.phase.Recovering? {
      PendingKept(cfg, s, w', tid);
    }
  }

  lemma AdvanceKeeps(cfg: Config, s: State, s': State, tid: int, choice: Choice)
    requires StateInv(cfg, s) && StepTo(cfg, s, s', Advance(tid, choice))
    ensures StateInv(cfg, s') && Guarantee(s.world, s'.world, Owned(s.threads[tid]))
  {
    hide WorldInv, Guarantee, ThreadInv, Owned, ThreadStep, PhaseInv, OwnersDisjoint, Acquires;
    var outcome := ThreadStep(cfg, s.world, s.threads[tid], choice);
    ThreadStepGood(cfg, s.world, s.threads[tid], choice);
    match outcome
    case Running(_, _) => RunningKeeps(cfg, s, s', tid, choice);
    case Returned(w') => EndingKeeps(cfg, s, w', tid, false);
    case Aborted(w') => EndingKeeps(cfg, s, w', tid, true);
  }

  // ----- The other steps

  lemma ClockSound(cfg: Config, w: World, now: int, killed: bool)
    requires WorldInv(cfg, w)
    ensures WorldInv(cfg, w.(now := now, killed := killed)) && Guarantee(w, w.(now := now, killed := killed), {})
  {
    SideTableSound(cfg, w, w.(now := now, killed := killed), {});
  }

  lemma AllStable(cfg: Config, s: State, w': World)
    requires StateInv(cfg, s) && Guarantee(s.world, w', {})
    ensures ThreadsInv(cfg, s.(world := w'))
    ensures s.phase.Recovering? ==> forall k :: 0 <= k < |s.phase.todo| ==> Pending(w'.db, s.phase.todo[k])
  {
    forall t | t in s.threads ensures ThreadInv(cfg, w', s.threads[t]) {
      Stable(cfg, s.world, w', {}, s.threads[t]);
    }
    if s.phase.Recovering? {
      forall k | 0 <= k < |s.phase.todo| ensures Pending(w'.db, s.phase.todo[k]) {
        assert Pending(s.world.db, s.phase.todo[k]);
      }
    }
  }

  lemma QuietKeeps(cfg: Config, s: State, w': World)
    requires StateInv(cfg, s) && WorldInv(cfg, w') && Guarantee(s.world, w', {})
    ensures StateInv(cfg, s.(world := w'))
  {
    hide WorldInv, Guarantee, ThreadInv, Owned, Pending, AfterDispatch;
    AllStable(cfg, s, w');
  }

  lemma IngestSound(cfg: Config, w: World, incident: Incident)
    requires WorldInv(cfg, w) && incident.id !in w.db.incidents
    ensures var w' := w.(db := w.db.(incidents := w.db.incidents[incident.id := incident]));
            WorldInv(cfg, w') && Guarantee(w, w', {})
  {
    SideTableSound(cfg, w, w.(db := w.db.(incidents := w.db.incidents[incident.id := incident])), {});
  }

  lemma StartedThreadInv(cfg: Config, w: World, thread: Thread)
    requires WorldInv(cfg, w) && Startable(cfg, w, thread)
    ensures ThreadInv(cfg, w, thread) && Owned(thread) == {}
  {
    if thread.ExecRead? {
      assert RecordMatchesStatus(w.db, thread.action.id);
    }
  }

  lemma StartKeeps(cfg: Config, s: State, s': State, tid: int, thread: Thread)
    requires StateInv(cfg, s) && StepTo(cfg, s, s', Start(tid, thread))
    ensures StateInv(cfg, s')
  {
    hide WorldInv, ThreadInv, Owned, Startable;
    StartedThreadInv(cfg, s.world, thread);
  }

  lemma PendingThreadInv(cfg: Config, w: World, execution: Execution, reconciled: Execution, from: IncidentState)
    requires WorldInv(cfg, w) && Pending(w.db, execution)
    requires reconciled == execution.(status := reconciled.status, finishedAt := reconciled.finishedAt)
    requires reconciled.status != ExecStarted
    ensures execution.action in w.db.actions
    ensures var thread := Saving(w.db.actions[execution.action], reconciled, from);
            ThreadInv(cfg, w, thread) && Owned(thread) == {execution.action}
  {
    assert w.db.executions[execution.id].action in w.db.actions;
    RollbackCalledOnlyAfterFailure(cfg, w, execution.action);
  }

  lemma OtherPendingActions(cfg: Config, w: World, e1: Execution, e2: Execution)
    requires WorldInv(cfg, w) && Pending(w.db, e1) && Pending(w.db, e2) && e1.id != e2.id
    ensures e1.action != e2.action
  {
    assert SameAction(w.db, e1.id, e2.id) ==> e1.id == e2.id;
  }

  lemma ReconcileKeeps(cfg: Config, s: State, s': State, status: Reconciliation, now: int)
    requires StateInv(cfg, s) && StepTo(cfg, s, s', Reconcile(status, now))
    ensures StateInv(cfg, s') && s'.world == s.world
  {
    hide WorldInv, ThreadInv, Owned, Pending;
    var todo := s.phase.todo;
    var reconciled := todo[0].(status := ReconciledStatus(status), finishedAt := now);
    assert Pending(s.world.db, todo[0]);
    if s'.phase.Recovering? {
      PendingThreadInv(cfg, s.world, todo[0], reconciled, s'.threads[0].from);
      forall k | 1 <= k < |todo| ensures todo[k].action !in Owned(s'.threads[0]) {
        OtherPendingActions(cfg, s.world, todo[k], todo[0]);
      }
      forall k | 0 <= k < |s'.phase.todo| ensures Pending(s.world.db, s'.phase.todo[k]) && s'.phase.todo[k].action !in Owned(s'.threads[0]) {
        assert s'.phase.todo[k] == todo[k + 1];
      }
    }
  }

  lemma BootKeeps(cfg: Config, s: State, s': State, todo: seq<Execution>)
    requires StateInv(cfg, s) && StepTo(cfg, s, s', Boot(todo))
    ensures StateInv(cfg, s')
  {
    hide WorldInv, ThreadInv, Owned;
    forall k | 0 <= k < |todo| ensures Pending(s.world.db, todo[k]) {
    }
  }

  // ----- Every step, every run

  lemma AdvanceOrAbort(cfg: Config, s: State, s': State, step: Step)
    requires StateInv(cfg, s) && StepTo(cfg, s, s', step) && (step.Advance? || step.Abort?)
    ensures StateInv(cfg, s') && Evolves(s.world, s'.world)
  {
    hide WorldInv, ThreadsInv, OwnersDisjoint, PhaseInv, Guarantee;
    if step.Advance? {
      AdvanceKeeps(cfg, s, s', step.tid, step.choice);
    } else {
      Unchanged(cfg, s.world, Owned(s.threads[step.tid]));
      EndingKeeps(cfg, s, s.world, step.tid, true);
    }
  }

  lemma OtherSteps(cfg: Config, s: State, s': State, step: Step)
    requires StateInv(cfg, s) && StepTo(cfg, s, s', step) && !step.Advance? && !step.Abort?
    ensures StateInv(cfg, s') && Guarantee(s.world, s'.world, {})
  {
    hide WorldInv, ThreadInv, Owned, Guarantee, Startable, StartedExecutions;
    Unchanged(cfg, s.world, {});
    match step
    case Tick(now) =>
      ClockSound(cfg, s.world, now, s.world.killed);
      QuietKeeps(cfg, s, s'.world);
    case SetKillSwitch(killed) =>
      ClockSound(cfg, s.world, s.world.now, killed);
      QuietKeeps(cfg, s, s'.world);
    case Ingest(incident) =>
      IngestSound(cfg, s.world, incident);
      QuietKeeps(cfg, s, s'.world);
    case Start(tid, thread) => StartKeeps(cfg, s, s', tid, thread);
    case Crash =>
    case Boot(todo) => BootKeeps(cfg, s, s', todo);
    case Reconcile(status, now) => ReconcileKeeps(cfg, s, s', status, now);
    case Serve =>
  }

  lemma NextKeeps(cfg: Config, s: State, s': State)
    requires StateInv(cfg, s) && Next(cfg, s, s')
    ensures StateInv(cfg, s') && Evolves(s.world, s'.world)
  {
    hide StateInv, Guarantee, StepTo;
    var step :| StepTo(cfg, s, s', step);
    if step.Advance? || step.Abort? {
      AdvanceOrAbort(cfg, s, s', step);
    } else {
      OtherSteps(cfg, s, s', step);
    }
  }

  lemma InitInv(cfg: Config, s: State)
    requires Init(s)
    ensures StateInv(cfg, s)
  {
  }

  /** The invariant holds at every point of every run. */
  lemma {:induction false} InvariantHolds(cfg: Config, run: seq<State>, k: nat)
    requires Run(cfg, run) && k < |run|
    ensures StateInv(cfg, run[k])
  {
    hide StateInv, Next, Evolves, Init;
    if k == 0 {
      InitInv(cfg, run[0]);
    } else {
      InvariantHolds(cfg, run, k - 1);
      assert StepAt(cfg, run, k);
      NextKeeps(cfg, run[k - 1], run[k]);
    }
  }
}
