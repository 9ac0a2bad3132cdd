/** When a call of ExecuteAction that nobody disturbs reaches its claim, and when it dispatches, told from
    the catalog entry, the rows, the records and the evidence alone. */
module AdmissionOutcomes {
  import opened Domain
  import opened StateMachine
  import opened Tables
  import opened Protocol
  import opened Completion
  import Digest
  import E = EvidenceItems

  // ----- The conditions

  /** The entry exists, is executable and not of high risk. */
  predicate Enabled(cfg: Config, action: Action) {
    && action.actionType in cfg.catalog
    && cfg.catalog[action.actionType].executable && cfg.catalog[action.actionType].risk != "high"
  }

  /** No record of the action is started or succeeded or ended less than the cooldown ago, the entry's own
      if it has one; and attempts are left, if they are limited. */
  ghost predicate Unspent(cfg: Config, w: World, action: Action)
    requires action.actionType in cfg.catalog
  {
    var d := cfg.catalog[action.actionType];
    var wait := if d.cooldown > 0 then d.cooldown else cfg.cooldown;
    && (forall r :: r in w.db.executions ==> Over(w.db.executions[r], action.id, wait, w.now))
    && (d.maxAttempts > 0 ==> |RecordsOf(w.db, action.id)| < d.maxAttempts)
  }

  ghost function RecordsOf(db: Database, a: Id): set<Id> {
    set r | r in db.executions && db.executions[r].action == a
  }

  predicate Over(e: Execution, action: Id, wait: int, now: int) {
    e.action == action && e.key == ExecuteKey(action) ==>
      e.status != ExecStarted && e.status != ExecSucceeded && now - e.finishedAt >= wait
  }

  /** The k-th record is the newest approving one; it is unexpired and names this action and rule. */
  predicate Standing(records: seq<Approval>, k: int, digest: string, rule: string, now: int) {
    && 0 <= k < |records| && records[k].approved && (forall j :: k < j < |records| ==> !records[j].approved)
    && records[k].expiresAt.Some? && now < records[k].expiresAt.value
    && records[k].digest == digest && records[k].policy == rule
  }

  /** Explicitly approved, with a standing approval; or allowed, unless its risk is medium. */
  ghost predicate Permitted(cfg: Config, w: World, action: Action)
    requires action.actionType in cfg.catalog
  {
    || (&& action.status == ActionApproved && action.id in w.db.decisions
        && var rule := w.db.decisions[action.id].rule;
           exists k :: Standing(ApprovalsOf(w.db, action.id), k, Digest.ActionApprovalDigest(action, rule), rule, w.now))
    || (action.status == Allowed && cfg.catalog[action.actionType].risk != "medium")
  }

  /** The incident exists and its environment and the target are on the entry's lists, if it has any. */
  predicate Listed(cfg: Config, db: Database, action: Action)
    requires action.actionType in cfg.catalog
  {
    var d := cfg.catalog[action.actionType];
    && action.incident in db.incidents
    && (d.environments == [] || db.incidents[action.incident].environment in d.environments)
    && (d.targets == [] || action.target in d.targets)
  }

  /** The k-th item is the last one with the id; it is dated, recent and not marked incomplete. */
  predicate Backs(items: seq<E.EvidenceItem>, k: int, id: Id, maxAge: int, now: int) {
    && 0 <= k < |items| && items[k].id == id && (forall j :: k < j < |items| ==> items[j].id != id)
    && items[k].observedAt.Some? && now - items[k].observedAt.value <= maxAge
    && items[k].complete != Some(false)
  }

  ghost predicate Evidenced(cfg: Config, action: Action, now: int) {
    && action.references != []
    && forall r :: 0 <= r < |action.references| ==>
         Backed(cfg.evidence(action.incident, now), action.references[r], cfg.evidenceMaxAge, now)
  }

  ghost predicate Backed(items: seq<E.EvidenceItem>, id: Id, maxAge: int, now: int) {
    exists k :: Backs(items, k, id, maxAge, now)
  }

  /** Everything ExecuteAction asks for before its claim. */
  ghost predicate Admissible(cfg: Config, w: World, action: Action) {
    && Enabled(cfg, action) && Unspent(cfg, w, action) && Permitted(cfg, w, action)
    && !w.killed && Listed(cfg, w.db, action) && Evidenced(cfg, action, w.now)
  }

  // ----- They are what the checks compute

  lemma {:induction false} StandingIff(records: seq<Approval>, digest: string, rule: string, now: int)
    ensures var found := ValidApproval(records, digest, rule, now);
            && (found.Some? <==> exists k :: Standing(records, k, digest, rule, now))
            && (forall k :: Standing(records, k, digest, rule, now) ==> found == Some(records[k]))
  {
    if records != [] {
      var before, last := records[..|records| - 1], |records| - 1;
      StandingIff(before, digest, rule, now);
      assert forall k :: 0 <= k < last ==> before[k] == records[k];
      if !records[last].approved {
        forall k ensures Standing(records, k, digest, rule, now) <==> Standing(before, k, digest, rule, now) {
        }
      } else {
        assert forall k :: Standing(records, k, digest, rule, now) ==> k == last;
        assert ValidApproval(records, digest, rule, now).Some? ==> Standing(records, last, digest, rule, now);
      }
    }
  }

  lemma HistoryIff(cfg: Config, w: World, action: Action)
    requires MayExecute(cfg, action)
    ensures HistoryAllows(cfg, w, action) <==> Unspent(cfg, w, action)
  {
    var d := cfg.catalog[action.actionType];
    var wait := if d.cooldown > 0 then d.cooldown else cfg.cooldown;
    assert wait == CooldownOf(cfg, d);
    BlockedIff(w.db, action.id, wait, w.now);
    AttemptsAre(w.db, action.id);
    hide Over, Duplicate, RecordsOf, Attempts, CooldownOf;
  }

  lemma BlockedIff(db: Database, action: Id, wait: int, now: int)
    ensures Duplicate(db, action, wait, now) <==> !forall r :: r in db.executions ==> Over(db.executions[r], action, wait, now)
  {
    if r :| r in db.executions && Blocks(db.executions[r], action, wait, now) {
      assert !Over(db.executions[r], action, wait, now);
    }
    if r :| r in db.executions && !Over(db.executions[r], action, wait, now) {
      assert Blocks(db.executions[r], action, wait, now);
    }
  }

  lemma AttemptsAre(db: Database, action: Id)
    ensures Attempts(db, action) == |RecordsOf(db, action)|
  {
  }

  lemma EvidenceIff(cfg: Config, action: Action, now: int)
    ensures E.Current(EvidenceOf(cfg, action, now), now) <==> Evidenced(cfg, action, now)
  {
    hide E.Supported, Backed;
    var items, evidence := cfg.evidence(action.incident, now), EvidenceOf(cfg, action, now);
    if E.Current(evidence, now) {
      forall r | 0 <= r < |action.references|
        ensures Backed(cfg.evidence(action.incident, now), action.references[r], cfg.evidenceMaxAge, now)
      {
        assert E.Supported(evidence.items, evidence.references[r], evidence.maxAge, now);
        BacksIff(items, action.references[r], cfg.evidenceMaxAge, now);
      }
    }
    if Evidenced(cfg, action, now) {
      forall r | 0 <= r < |evidence.references| ensures E.Supported(evidence.items, evidence.references[r], evidence.maxAge, now) {
        assert action.references[r] == evidence.references[r];
        BacksIff(items, action.references[r], cfg.evidenceMaxAge, now);
      }
    }
  }

  lemma BacksIff(items: seq<E.EvidenceItem>, id: Id, maxAge: int, now: int)
    ensures E.Supported(items, id, maxAge, now) <==> Backed(items, id, maxAge, now)
  {
    if k :| 0 <= k < |items| && E.LastWithId(items, |items|, k, id) && E.Usable(items[k], maxAge, now) {
      assert Backs(items, k, id, maxAge, now);
    }
    if k :| Backs(items, k, id, maxAge, now) {
      assert E.LastWithId(items, |items|, k, id);
    }
  }

  /** What the claim is made with: nothing for an allowed action, the standing approval otherwise. */
  ghost predicate ClaimsWith(w: World, action: Action, certificate: Certificate) {
    if action.status == Allowed then certificate == NoCertificate
    else
      && action.id in w.db.decisions
      && var rule := w.db.decisions[action.id].rule;
         exists k :: && Standing(ApprovalsOf(w.db, action.id), k, Digest.ActionApprovalDigest(action, rule), rule, w.now)
                     && certificate == Certificate(ApprovalsOf(w.db, action.id)[k], rule, w.now)
  }

  // ----- Reaching the claim

  /** The call comes to its claim. */
  ghost predicate Arrives(cfg: Config, w: World, thread: Thread, oracle: Oracle)
    decreases Stage(thread), Remaining(cfg, thread)
  {
    || thread.ExecReady?
    || match ThreadStep(cfg, w, thread, ChoiceOf(cfg, oracle, thread))
       case Running(w', thread') =>
         Descends(cfg, w, thread, ChoiceOf(cfg, oracle, thread));
         Arrives(cfg, w', thread', oracle)
       case _ => false
  }

  lemma ArrivesNext(cfg: Config, w: World, thread: Thread, w': World, thread': Thread, oracle: Oracle)
    requires !thread.ExecReady? && ThreadStep(cfg, w, thread, ChoiceOf(cfg, oracle, thread)) == Running(w', thread')
    ensures Arrives(cfg, w, thread, oracle) == Arrives(cfg, w', thread', oracle)
    ensures Finish(cfg, w, thread, oracle) == Finish(cfg, w', thread', oracle)
  {
    hide ThreadStep;
  }

  lemma ArrivesNever(cfg: Config, w: World, thread: Thread, oracle: Oracle)
    requires !thread.ExecReady? && ThreadStep(cfg, w, thread, ChoiceOf(cfg, oracle, thread)) == Aborted(w)
    ensures !Arrives(cfg, w, thread, oracle) && Finish(cfg, w, thread, oracle) == Ending(w, false)
  {
    hide ThreadStep;
  }

  /** What becomes of the call from here: it arrives with this certificate, or it fails without a trace. */
  ghost predicate Fate(cfg: Config, w: World, thread: Thread, oracle: Oracle, goes: bool, certificate: Certificate)
    requires thread.ExecRead? || thread.ExecListed? || thread.ExecDecision? || thread.ExecCleared? || thread.ExecArmed?
  {
    && (Arrives(cfg, w, thread, oracle) <==> goes)
    && Finish(cfg, w, thread, oracle) == if goes then Finish(cfg, w, ExecReady(thread.action, thread.initiator, certificate), oracle) else Ending(w, false)
  }

  /** From the approval check on. */
  lemma ClearedFate(cfg: Config, w: World, action: Action, initiator: string, certificate: Certificate, oracle: Oracle)
    requires MayExecute(cfg, action)
    ensures Fate(cfg, w, ExecCleared(action, initiator, certificate), oracle, !w.killed && Listed(cfg, w.db, action) && Evidenced(cfg, action, w.now), certificate)
  {
    hide Finish, Arrives, E.Current, Evidenced;
    EvidenceIff(cfg, action, w.now);
    var cleared, armed, ready := ExecCleared(action, initiator, certificate), ExecArmed(action, initiator, certificate), ExecReady(action, initiator, certificate);
    if w.killed {
      ArrivesNever(cfg, w, cleared, oracle);
    } else {
      ArrivesNext(cfg, w, cleared, w, armed, oracle);
      if Listed(cfg, w.db, action) && Evidenced(cfg, action, w.now) {
        ArrivesNext(cfg, w, armed, w, ready, oracle);
        ReadyArrives(cfg, w, ready, oracle);
      } else {
        ArrivesNever(cfg, w, armed, oracle);
      }
    }
  }

  lemma ReadyArrives(cfg: Config, w: World, thread: Thread, oracle: Oracle)
    requires thread.ExecReady?
    ensures Arrives(cfg, w, thread, oracle)
  {
  }

  /** From the history check on. */
  lemma ListedFate(cfg: Config, w: World, action: Action, initiator: string, oracle: Oracle) returns (certificate: Certificate)
    requires MayExecute(cfg, action)
    ensures Fate(cfg, w, ExecListed(action, initiator), oracle,
                 Permitted(cfg, w, action) && !w.killed && Listed(cfg, w.db, action) && Evidenced(cfg, action, w.now), certificate)
    ensures Permitted(cfg, w, action) ==> ClaimsWith(w, action, certificate)
  {
    hide Finish, Arrives, Evidenced, Listed, ValidApproval, Standing, Digest.ActionApprovalDigest, Fate;
    certificate := NoCertificate;
    var listed := ExecListed(action, initiator);
    if action.status == Allowed && cfg.catalog[action.actionType].risk != "medium" {
      ArrivesNext(cfg, w, listed, w, ExecCleared(action, initiator, certificate), oracle);
      ClearedFate(cfg, w, action, initiator, certificate, oracle);
      FateBefore(cfg, w, listed, ExecCleared(action, initiator, certificate), oracle, !w.killed && Listed(cfg, w.db, action) && Evidenced(cfg, action, w.now), certificate);
    } else if action.status == ActionApproved && action.id in w.db.decisions {
      ArrivesNext(cfg, w, listed, w, ExecDecision(action, initiator, w.db.decisions[action.id]), oracle);
      certificate := DecisionFate(cfg, w, action, initiator, oracle);
      FateBefore(cfg, w, listed, ExecDecision(action, initiator, w.db.decisions[action.id]), oracle,
                 Permitted(cfg, w, action) && !w.killed && Listed(cfg, w.db, action) && Evidenced(cfg, action, w.now), certificate);
    } else {
      ArrivesNever(cfg, w, listed, oracle);
      FateNever(cfg, w, listed, oracle, certificate);
    }
  }

  lemma FateBefore(cfg: Config, w: World, thread: Thread, thread': Thread, oracle: Oracle, goes: bool, certificate: Certificate)
    requires thread.ExecRead? || thread.ExecListed? || thread.ExecDecision?
    requires thread'.ExecListed? || thread'.ExecDecision? || thread'.ExecCleared?
    requires thread'.action == thread.action && thread'.initiator == thread.initiator
    requires Arrives(cfg, w, thread, oracle) == Arrives(cfg, w, thread', oracle)
    requires Finish(cfg, w, thread, oracle) == Finish(cfg, w, thread', oracle)
    requires Fate(cfg, w, thread', oracle, goes, certificate)
    ensures Fate(cfg, w, thread, oracle, goes, certificate)
  {
    hide Finish, Arrives;
  }

  lemma FateNever(cfg: Config, w: World, thread: Thread, oracle: Oracle, certificate: Certificate)
    requires thread.ExecRead? || thread.ExecListed? || thread.ExecDecision?
    requires !Arrives(cfg, w, thread, oracle) && Finish(cfg, w, thread, oracle) == Ending(w, false)
    ensures Fate(cfg, w, thread, oracle, false, certificate)
  {
    hide Finish, Arrives;
  }

  lemma DecisionFate(cfg: Config, w: World, action: Action, initiator: string, oracle: Oracle) returns (certificate: Certificate)
    requires MayExecute(cfg, action) && action.status == ActionApproved && action.id in w.db.decisions
    ensures Fate(cfg, w, ExecDecision(action, initiator, w.db.decisions[action.id]), oracle,
                 Permitted(cfg, w, action) && !w.killed && Listed(cfg, w.db, action) && Evidenced(cfg, action, w.now), certificate)
    ensures Permitted(cfg, w, action) ==> ClaimsWith(w, action, certificate)
  {
    hide Finish, Arrives, Evidenced, Listed, ValidApproval, Standing, Digest.ActionApprovalDigest, Fate;
    var decision := w.db.decisions[action.id];
    var records, digest := ApprovalsOf(w.db, action.id), Digest.ActionApprovalDigest(action, decision.rule);
    var thread := ExecDecision(action, initiator, decision);
    StandingIff(records, digest, decision.rule, w.now);
    if k :| Standing(records, k, digest, decision.rule, w.now) {
      StandingIndex(records, k, digest, decision.rule, w.now);
      certificate := Certificate(records[k], decision.rule, w.now);
      ArrivesNext(cfg, w, thread, w, ExecCleared(action, initiator, certificate), oracle);
      ClearedFate(cfg, w, action, initiator, certificate, oracle);
      FateBefore(cfg, w, thread, ExecCleared(action, initiator, certificate), oracle, !w.killed && Listed(cfg, w.db, action) && Evidenced(cfg, action, w.now), certificate);
    } else {
      certificate := NoCertificate;
      ArrivesNever(cfg, w, thread, oracle);
      FateNever(cfg, w, thread, oracle, certificate);
    }
  }

  lemma StandingIndex(records: seq<Approval>, k: int, digest: string, rule: string, now: int)
    requires Standing(records, k, digest, rule, now)
    ensures 0 <= k < |records|
  {
  }

  /** A call reaches its claim exactly when its action is admissible, and then with nothing changed and
      the standing approval in hand; otherwise it fails without a trace. */
  lemma ReachesClaimIff(cfg: Config, w: World, action: Action, initiator: string, oracle: Oracle) returns (certificate: Certificate)
    ensures Arrives(cfg, w, ExecRead(action, initiator), oracle) <==> Admissible(cfg, w, action)
    ensures Admissible(cfg, w, action) ==>
              && ClaimsWith(w, action, certificate)
              && Finish(cfg, w, ExecRead(action, initiator), oracle) == Finish(cfg, w, ExecReady(action, initiator, certificate), oracle)
    ensures !Admissible(cfg, w, action) ==> Finish(cfg, w, ExecRead(action, initiator), oracle) == Ending(w, false)
  {
    hide Finish, Arrives, Evidenced, Listed, Permitted, Unspent, Duplicate, Attempts, CooldownOf, ClaimsWith;
    var thread := ExecRead(action, initiator);
    certificate := NoCertificate;
    if !Enabled(cfg, action) {
      ArrivesNever(cfg, w, thread, oracle);
    } else {
      HistoryIff(cfg, w, action);
      if Unspent(cfg, w, action) {
        ArrivesNext(cfg, w, thread, w, ExecListed(action, initiator), oracle);
        certificate := ListedFate(cfg, w, action, initiator, oracle);
      } else {
        ArrivesNever(cfg, w, thread, oracle);
      }
    }
  }
}
