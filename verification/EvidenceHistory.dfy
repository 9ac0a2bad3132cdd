/** When evidence was checked: every dispatch goes back to an earlier state of the run in which the
    evidence its action refers to was fresh. */
module EvidenceHistory {
  import opened Domain
  import opened Tables
  import opened Protocol
  import opened ProtocolInvariant
  import opened ProtocolRuns
  import opened Completion
  import opened ProtocolHistory
  import Digest
  import E = EvidenceItems

  /** The call has passed the evidence check and not yet ended its dispatch. */
  predicate Admitted(thread: Thread) {
    thread.ExecReady? || thread.Dispatching? || thread.Calling?
  }

  predicate FreshAt(cfg: Config, run: seq<State>, j: int, action: Action)
    requires 0 <= j < |run|
  {
    E.Current(EvidenceOf(cfg, action, run[j].world.now), run[j].world.now)
  }

  ghost predicate Backed(cfg: Config, run: seq<State>, k: int, action: Action)
    requires 0 <= k < |run|
  {
    exists j :: 0 <= j <= k && FreshAt(cfg, run, j, action)
  }

  ghost predicate AllBacked(cfg: Config, run: seq<State>, k: int)
    requires 0 <= k < |run|
  {
    && (forall t :: t in run[k].threads && Admitted(run[k].threads[t]) ==> Backed(cfg, run, k, run[k].threads[t].action))
    && (forall n :: 0 <= n < |run[k].world.log| && run[k].world.log[n].ExecuteCall? ==> Backed(cfg, run, k, run[k].world.log[n].action))
  }

  /** A step lets a call in only on fresh evidence. */
  ghost predicate LetsIn(cfg: Config, w: World, thread: Thread, outcome: Outcome) {
    outcome.Running? && Admitted(outcome.thread) ==>
      if Admitted(thread) then outcome.thread.action == thread.action
      else E.Current(EvidenceOf(cfg, outcome.thread.action, w.now), w.now)
  }

  lemma StepLetsIn(cfg: Config, w: World, thread: Thread, choice: Choice)
    ensures LetsIn(cfg, w, thread, ThreadStep(cfg, w, thread, choice))
  {
    hide Duplicate, Attempts, CooldownOf, InScope, ClaimExecution, Executable, MayExecute, Digest.ActionApprovalDigest, ValidApproval, E.Current;
    if thread.ExecRead? || thread.ExecListed? || thread.ExecDecision? || Carries(thread) {
    } else {
      hide ThreadStep;
      OthersCarryNothing(cfg, w, thread, choice);
    }
  }

  lemma BackedLater(cfg: Config, run: seq<State>, k: nat, action: Action)
    requires k + 1 < |run| && Backed(cfg, run, k, action)
    ensures Backed(cfg, run, k + 1, action)
  {
    var j :| 0 <= j <= k && FreshAt(cfg, run, j, action);
  }

  lemma AdvanceBacked(cfg: Config, run: seq<State>, k: nat, tid: int, choice: Choice)
    requires k + 1 < |run| && AllBacked(cfg, run, k) && StepTo(cfg, run[k], run[k + 1], Advance(tid, choice))
    ensures AllBacked(cfg, run, k + 1)
  {
    hide ThreadStep, Backed, Startable, StartedExecutions;
    var s, s' := run[k], run[k + 1];
    var thread := s.threads[tid];
    StepLetsIn(cfg, s.world, thread, choice);
    StepLogs(cfg, s.world, thread, choice);
    forall t | t in s'.threads && Admitted(s'.threads[t]) ensures Backed(cfg, run, k + 1, s'.threads[t].action) {
      if t != tid || Admitted(thread) {
        assert Admitted(s.threads[t]);
      } else {
        BackedNow(cfg, run, k, s'.threads[t].action);
      }
      BackedLater(cfg, run, k, s'.threads[t].action);
    }
    forall n | 0 <= n < |s'.world.log| && s'.world.log[n].ExecuteCall? ensures Backed(cfg, run, k + 1, s'.world.log[n].action) {
      if n < |s.world.log| {
        assert s'.world.log[n] == s.world.log[n];
      } else {
        assert Admitted(s.threads[tid]);
      }
      BackedLater(cfg, run, k, s'.world.log[n].action);
    }
  }

  lemma BackedNow(cfg: Config, run: seq<State>, k: nat, action: Action)
    requires k < |run| && FreshAt(cfg, run, k, action)
    ensures Backed(cfg, run, k, action)
  {
  }

  lemma OtherBacked(cfg: Config, run: seq<State>, k: nat, step: Step)
    requires k + 1 < |run| && AllBacked(cfg, run, k) && StepTo(cfg, run[k], run[k + 1], step) && !step.Advance?
    ensures AllBacked(cfg, run, k + 1)
  {
    hide Backed, StartedExecutions;
    var s, s' := run[k], run[k + 1];
    forall t | t in s'.threads && Admitted(s'.threads[t]) ensures Backed(cfg, run, k + 1, s'.threads[t].action) {
      assert t in s.threads && s'.threads[t] == s.threads[t];
      BackedLater(cfg, run, k, s'.threads[t].action);
    }
    forall n | 0 <= n < |s'.world.log| && s'.world.log[n].ExecuteCall? ensures Backed(cfg, run, k + 1, s'.world.log[n].action) {
      assert s'.world.log[n] == s.world.log[n];
      BackedLater(cfg, run, k, s'.world.log[n].action);
    }
  }

  lemma {:induction false} RunBacked(cfg: Config, run: seq<State>, k: nat)
    requires Run(cfg, run) && k < |run|
    ensures AllBacked(cfg, run, k)
  {
    if k > 0 {
      RunBacked(cfg, run, k - 1);
      assert StepAt(cfg, run, k);
      var step :| StepTo(cfg, run[k - 1], run[k], step);
      hide AllBacked, StepTo;
      if step.Advance? {
        AdvanceBacked(cfg, run, k - 1, step.tid, step.choice);
      } else {
        OtherBacked(cfg, run, k - 1, step);
      }
    }
  }

  /** Behind every dispatch of a run there is an earlier state in which the action's references were all
      there, recent and complete. */
  lemma EveryDispatchHadEvidence(cfg: Config, run: seq<State>, k: nat, n: nat) returns (j: nat)
    requires Run(cfg, run) && k < |run| && n < |run[k].world.log| && run[k].world.log[n].ExecuteCall?
    ensures j <= k
    ensures var action, now := run[k].world.log[n].action, run[j].world.now;
            && action.references != []
            && forall r :: 0 <= r < |action.references| ==>
                 E.Supported(cfg.evidence(action.incident, now), action.references[r], cfg.evidenceMaxAge, now)
  {
    hide Run, E.Supported;
    RunBacked(cfg, run, k);
    var action := run[k].world.log[n].action;
    assert Backed(cfg, run, k, action);
    j :| 0 <= j <= k && FreshAt(cfg, run, j, action);
  }
}
