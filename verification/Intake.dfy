/** Webhook intake: a firing alert opens an incident unless its latest one is still open, a resolved
    alert resolves or closes the latest one if the state table allows. */
module Intake {
  import opened Domain
  import opened StateMachine
  import Tables
  import J = JobRunner
  import M = MemoryStore
  import Q = JobQueue

  type Incidents = map<Id, Incident>

  function NextStateForResolvedAlert(state: IncidentState): Option<IncidentState> {
    if CanTransition(state, Resolved) then Some(Resolved)
    else if CanTransition(state, Closed) then Some(Closed)
    else None
  }

  /** Its states: the only open one from which an alert can be resolved is VerifyingAction; it closes
      the early ones, and leaves an incident alone from approval until verification. */
  lemma ResolvedAlertMoves(state: IncidentState)
    requires !Terminal(state)
    ensures NextStateForResolvedAlert(state)
            == if state == VerifyingAction then Some(Resolved)
               else if state in {Detected, Triaging, ActionProposed, AwaitingApproval} then Some(Closed)
               else None
    ensures NextStateForResolvedAlert(state).Some? ==> Terminal(NextStateForResolvedAlert(state).value)
  {
  }

  function WithState(incidents: Incidents, i: Id, state: IncidentState): Incidents
    requires i in incidents
  {
    incidents[i := incidents[i].(state := state)]
  }

  ghost predicate IsLatest(incidents: Incidents, alert: string, i: Id) {
    && i in incidents && incidents[i].alert == alert
    && forall j :: j in incidents && incidents[j].alert == alert ==> incidents[j].createdAt <= incidents[i].createdAt
  }

  /** A latest incident of the alert that is still open. */
  ghost predicate OpenLatest(incidents: Incidents, alert: string, i: Id) {
    IsLatest(incidents, alert, i) && incidents[i].state !in {Resolved, FailedRemediation, RolledBack, Escalated, Closed}
  }

  /** The alert is new, or its latest incident is in a terminal state. */
  ghost predicate NoneOpen(incidents: Incidents, alert: string) {
    Unknown(incidents, alert) || exists i :: IsLatest(incidents, alert, i) && Ended(incidents, i)
  }

  ghost predicate Ended(incidents: Incidents, i: Id)
    requires i in incidents
  {
    incidents[i].state in {Resolved, FailedRemediation, RolledBack, Escalated, Closed}
  }

  /** The incident is resolved if it was being verified and closed if it was not yet approved; it stays as it
      is from approval to execution. */
  ghost predicate Answered(before: Incidents, after: Incidents, i: Id) {
    && i in before
    && var state := before[i].state;
       after == before[i := before[i].(state := if state == VerifyingAction then Resolved
                                                else if state in {Detected, Triaging, ActionProposed, AwaitingApproval} then Closed
                                                else state)]
  }

  ghost predicate Unknown(incidents: Incidents, alert: string) {
    forall i :: i in incidents ==> incidents[i].alert != alert
  }

  /** What one webhook does to the table, given the latest incident of its alert. */
  ghost predicate Handles(before: Incidents, after: Incidents, latest: Option<Id>, resolved: bool, candidate: Incident)
    requires latest.Some? ==> latest.value in before
  {
    var open := latest.Some? && !Terminal(before[latest.value].state);
    if resolved then
      after == if open && NextStateForResolvedAlert(before[latest.value].state).Some?
               then WithState(before, latest.value, NextStateForResolvedAlert(before[latest.value].state).value) else before
    else after == if open then before else before[candidate.id := candidate]
  }

  ghost predicate Webhook(before: Incidents, after: Incidents, resolved: bool, candidate: Incident) {
    if Unknown(before, candidate.alert) then Handles(before, after, None, resolved, candidate)
    else exists i :: IsLatest(before, candidate.alert, i) && Handles(before, after, Some(i), resolved, candidate)
  }

  lemma HandledLatest(before: Incidents, after: Incidents, latest: Option<Id>, resolved: bool, candidate: Incident)
    requires if latest.Some? then IsLatest(before, candidate.alert, latest.value) else Unknown(before, candidate.alert)
    requires Handles(before, after, latest, resolved, candidate)
    ensures Webhook(before, after, resolved, candidate)
  {
    hide Handles;
  }

  /** A resolved alert without an open incident is ignored; a failing audit event fails the call. */
  datatype Reply = Ignored | Told(incident: Id) | AuditFailure

  /** The triage job that is stored with a new incident. */
  function TriageJob(id: Id, incident: Id, now: int): Q.Job {
    Q.Job(id, incident, Q.Queued, 0, Q.TRIAGE_ATTEMPTS, now, now, None, None)
  }

  class Service {
    const store: M.MemoryStore
    const jobs: J.JobStore
    const triages: bool // triage is configured, and incident, audit event and job are stored together

    constructor (store: M.MemoryStore, jobs: J.JobStore, triages: bool)
      ensures this.store == store && this.jobs == jobs && this.triages == triages
    {
      this.store, this.jobs, this.triages := store, jobs, triages;
    }

    /** acceptGrafanaWebhook. With triage configured a new incident is stored with its job or not at all. */
    method AcceptGrafanaWebhook(alert: string, environment: string, resolved: bool, id: Id, jobId: Id, now: int, audited: bool)
      returns (reply: Reply)
      requires store.Valid() && id !in store.db.incidents
      requires jobs.Valid() && jobId !in jobs.jobs && !Q.Deduplicated(jobs.jobs, id)
      modifies store, jobs`jobs
      ensures store.Valid() && jobs.Valid()
      ensures store.db == old(store.db).(incidents := store.db.incidents)
      ensures var candidate := Incident(id, alert, environment, if triages then Triaging else Detected, now);
              var handled := Webhook(old(store.db).incidents, store.db.incidents, resolved, candidate);
              && (reply != AuditFailure ==> handled)
              && (reply == AuditFailure ==> !audited && (handled || store.db == old(store.db)))
      ensures reply.Told? ==> reply.incident in store.db.incidents && store.db.incidents[reply.incident].alert == alert
      ensures reply.Told? ==> if id in store.db.incidents then !resolved && reply.incident == id
                              else OpenLatest(old(store.db).incidents, alert, reply.incident)
      ensures reply.Ignored? ==> resolved && store.db == old(store.db) && NoneOpen(store.db.incidents, alert)
      ensures resolved && reply.Told? ==> Answered(old(store.db).incidents, store.db.incidents, reply.incident)
      ensures !resolved ==>
                store.db.incidents == if id !in store.db.incidents then old(store.db).incidents
                                      else old(store.db).incidents[id := Incident(id, alert, environment, if triages then Triaging else Detected, now)]
      ensures id in store.db.incidents ==> !resolved && NoneOpen(old(store.db).incidents, alert)
      ensures jobs.jobs == if triages && id in store.db.incidents
                           then old(jobs.jobs)[jobId := Q.Job(jobId, id, Q.Queued, 0, 3, now, now, None, None)] else old(jobs.jobs)
    {
      hide M.MemoryStore.Valid, J.JobStore.Valid, Q.Deduplicated, Webhook, IsLatest, Unknown, OpenLatest, NoneOpen;
      var latest, key := Lookup(alert);
      var candidate := Incident(id, alert, environment, if triages then Triaging else Detected, now);
      if resolved {
        reply := Resolve(latest, key, audited, candidate);
      } else {
        reply := Fire(latest, key, jobId, audited, candidate);
      }
    }

    method Lookup(alert: string) returns (latest: Option<Incident>, ghost key: Id)
      requires store.Valid()
      ensures latest.None? ==> Unknown(store.db.incidents, alert)
      ensures latest.Some? ==> latest.value.id == key && IsLatest(store.db.incidents, alert, key) && store.db.incidents[key] == latest.value
    {
      hide M.MemoryStore.Valid;
      latest, key := store.GetLatestIncidentByExternalAlertID(alert);
    }

    method Resolve(latest: Option<Incident>, ghost key: Id, audited: bool, ghost candidate: Incident) returns (reply: Reply)
      requires store.Valid() && candidate.id !in store.db.incidents
      requires latest.None? ==> Unknown(store.db.incidents, candidate.alert)
      requires latest.Some? ==> latest.value.id == key && IsLatest(store.db.incidents, candidate.alert, key) && store.db.incidents[key] == latest.value
      modifies store
      ensures store.Valid() && store.db == old(store.db).(incidents := store.db.incidents) && candidate.id !in store.db.incidents
      ensures Webhook(old(store.db).incidents, store.db.incidents, true, candidate)
      ensures reply == AuditFailure ==> !audited
      ensures reply.Told? ==> reply.incident in store.db.incidents && store.db.incidents[reply.incident].alert == candidate.alert
      ensures reply.Told? ==> OpenLatest(old(store.db).incidents, candidate.alert, reply.incident)
      ensures reply.Told? ==> Answered(old(store.db).incidents, store.db.incidents, reply.incident)
      ensures reply.Ignored? ==> store.db == old(store.db) && NoneOpen(store.db.incidents, candidate.alert)
    {
      hide M.MemoryStore.Valid, Webhook, Unknown;
      ghost var was, found := store.db.incidents, if latest.Some? then Some(key) else None;
      ghost var next' := if latest.Some? then NextStateForResolvedAlert(latest.value.state) else None;
      HandledLatest(was, if latest.Some? && !Terminal(latest.value.state) && next'.Some? then WithState(was, key, next'.value) else was, found, true, candidate);
      if latest.None? || Terminal(latest.value.state) {
        assert latest.Some? ==> Ended(was, key);
        return Ignored;
      }
      var next := NextStateForResolvedAlert(latest.value.state);
      if next.None? {
        return Told(latest.value.id);
      }
      var moved := store.CompareAndSwapIncidentState(latest.value.id, latest.value.state, next.value);
      return if audited then Told(latest.value.id) else AuditFailure;
    }

    method Fire(latest: Option<Incident>, ghost key: Id, jobId: Id, audited: bool, candidate: Incident) returns (reply: Reply)
      requires store.Valid() && candidate.id !in store.db.incidents
      requires jobs.Valid() && jobId !in jobs.jobs && !Q.Deduplicated(jobs.jobs, candidate.id)
      requires latest.None? ==> Unknown(store.db.incidents, candidate.alert)
      requires latest.Some? ==> latest.value.id == key && IsLatest(store.db.incidents, candidate.alert, key) && store.db.incidents[key] == latest.value
      modifies store, jobs`jobs
      ensures store.Valid() && jobs.Valid() && store.db == old(store.db).(incidents := store.db.incidents)
      ensures reply != AuditFailure ==> Webhook(old(store.db).incidents, store.db.incidents, false, candidate)
      ensures reply == AuditFailure ==> !audited && (store.db == old(store.db) || Webhook(old(store.db).incidents, store.db.incidents, false, candidate))
      ensures !reply.Ignored? && (reply.Told? ==> reply.incident in store.db.incidents && store.db.incidents[reply.incident].alert == candidate.alert)
      ensures reply.Told? ==> if candidate.id in store.db.incidents then reply.incident == candidate.id
                              else OpenLatest(old(store.db).incidents, candidate.alert, reply.incident)
      ensures store.db.incidents == if candidate.id !in store.db.incidents then old(store.db).incidents else old(store.db).incidents[candidate.id := candidate]
      ensures candidate.id in store.db.incidents ==> NoneOpen(old(store.db).incidents, candidate.alert)
      ensures jobs.jobs == if triages && candidate.id in store.db.incidents
                           then old(jobs.jobs)[jobId := TriageJob(jobId, candidate.id, candidate.createdAt)] else old(jobs.jobs)
    {
      hide M.MemoryStore.Valid, J.JobStore.Valid, Q.Deduplicated, Webhook, Unknown;
      ghost var was, found := store.db.incidents, if latest.Some? then Some(key) else None;
      HandledLatest(was, if latest.Some? && !Terminal(latest.value.state) then was else was[candidate.id := candidate], found, false, candidate);
      if latest.Some? && !Terminal(latest.value.state) {
        return if audited then Told(latest.value.id) else AuditFailure;
      }
      assert latest.Some? ==> Ended(was, key);
      if triages && !audited {
        return AuditFailure; // the transaction is rolled back
      }
      Open(candidate, jobId);
      return if audited then Told(candidate.id) else AuditFailure;
    }

    /** The new incident, with its job if triage is configured. */
    method Open(candidate: Incident, jobId: Id)
      requires store.Valid() && candidate.id !in store.db.incidents
      requires jobs.Valid() && jobId !in jobs.jobs && !Q.Deduplicated(jobs.jobs, candidate.id)
      modifies store, jobs`jobs
      ensures store.Valid() && jobs.Valid()
      ensures store.db == old(store.db).(incidents := old(store.db).incidents[candidate.id := candidate])
      ensures jobs.jobs == if triages then old(jobs.jobs)[jobId := TriageJob(jobId, candidate.id, candidate.createdAt)] else old(jobs.jobs)
    {
      hide M.MemoryStore.Valid, J.JobStore.Valid, Q.Deduplicated;
      store.CreateIncident(candidate);
      if triages {
        jobs.EnqueueJob(TriageJob(jobId, candidate.id, candidate.createdAt));
      }
    }
  }

  // ----- One open incident per alert

  ghost predicate Open(incidents: Incidents, alert: string, i: Id) {
    i in incidents && incidents[i].alert == alert && !Terminal(incidents[i].state)
  }

  /** An open incident of the alert is its newest one, and the only open one. */
  ghost predicate OneOpen(incidents: Incidents, alert: string) {
    forall i, j :: i in incidents && j in incidents && i != j && incidents[i].alert == alert && incidents[j].alert == alert
                   && !Terminal(incidents[i].state)
                   ==> Terminal(incidents[j].state) && incidents[j].createdAt < incidents[i].createdAt
  }

  datatype Event =
    | Received(resolved: bool, candidate: Incident)
    | Moved(incident: Id, to: IncidentState)
    | Claimed(incident: Id)

  /** Webhooks one after the other, each created after the incidents of its alert; moves along the
      table; claims on open incidents. */
  ghost predicate StepTo(before: Incidents, after: Incidents, event: Event) {
    match event
    case Received(resolved, candidate) =>
      && candidate.id !in before && !Terminal(candidate.state)
      && (forall i :: i in before && before[i].alert == candidate.alert ==> before[i].createdAt < candidate.createdAt)
      && (after == before || Webhook(before, after, resolved, candidate)) // a failing call may do nothing
    case Moved(i, to) => i in before && CanTransition(before[i].state, to) && after == WithState(before, i, to)
    case Claimed(i) => i in before && !Terminal(before[i].state) && after == WithState(before, i, ExecutingAction)
  }

  ghost predicate Next(before: Incidents, after: Incidents) {
    exists event :: StepTo(before, after, event)
  }

  ghost predicate StepAt(run: seq<Incidents>, k: int)
    requires 0 < k < |run|
  {
    Next(run[k - 1], run[k])
  }

  ghost predicate Run(run: seq<Incidents>) {
    run != [] && run[0] == map[] && forall k :: 0 < k < |run| ==> StepAt(run, k)
  }

  lemma MoveKeepsOneOpen(before: Incidents, i: Id, to: IncidentState, alert: string)
    requires i in before && OneOpen(before, alert) && (Terminal(before[i].state) ==> Terminal(to))
    ensures OneOpen(WithState(before, i, to), alert)
  {
    var after := WithState(before, i, to);
    assert forall j :: j in after ==> j in before && (j != i ==> after[j] == before[j]);
  }

  lemma HandlingKeepsOneOpen(before: Incidents, after: Incidents, latest: Option<Id>, resolved: bool, candidate: Incident, alert: string)
    requires OneOpen(before, alert) && candidate.id !in before
    requires if latest.Some? then IsLatest(before, candidate.alert, latest.value) else Unknown(before, candidate.alert)
    requires forall i :: i in before && before[i].alert == candidate.alert ==> before[i].createdAt < candidate.createdAt
    requires Handles(before, after, latest, resolved, candidate)
    ensures OneOpen(after, alert)
  {
    if latest.Some? && resolved && NextStateForResolvedAlert(before[latest.value].state).Some? && !Terminal(before[latest.value].state) {
      MoveKeepsOneOpen(before, latest.value, NextStateForResolvedAlert(before[latest.value].state).value, alert);
    }
  }

  lemma NextKeepsOneOpen(before: Incidents, after: Incidents, alert: string)
    requires OneOpen(before, alert) && Next(before, after)
    ensures OneOpen(after, alert)
  {
    hide OneOpen, Handles, Unknown;
    var event :| StepTo(before, after, event);
    match event
    case Received(resolved, candidate) =>
      if after == before {
      } else if Unknown(before, candidate.alert) {
        HandlingKeepsOneOpen(before, after, None, resolved, candidate, alert);
      } else {
        var i :| IsLatest(before, candidate.alert, i) && Handles(before, after, Some(i), resolved, candidate);
        HandlingKeepsOneOpen(before, after, Some(i), resolved, candidate, alert);
      }
    case Moved(i, to) =>
      MoveKeepsOneOpen(before, i, to, alert);
    case Claimed(i) =>
      MoveKeepsOneOpen(before, i, ExecutingAction, alert);
  }

  /** Over any sequence of webhooks, table-legal moves and claims on open incidents, an alert has at most
      one open incident, and that one is what the lookup by alert finds. */
  lemma {:induction false} AtMostOneOpen(run: seq<Incidents>, k: nat, alert: string)
    requires Run(run) && k < |run|
    ensures forall i, j :: Open(run[k], alert, i) && Open(run[k], alert, j) ==> i == j
    ensures forall i, latest :: Open(run[k], alert, i) && IsLatest(run[k], alert, latest) ==> latest == i
    ensures OneOpen(run[k], alert)
  {
    if k > 0 {
      AtMostOneOpen(run, k - 1, alert);
      assert StepAt(run, k);
      NextKeepsOneOpen(run[k - 1], run[k], alert);
    }
  }

  /** A claim also revives terminal incidents. It keeps the alert to one open incident exactly when the
      claimed incident is the alert's newest and no other one is open. */
  lemma ClaimKeepsOneOpenIff(before: Incidents, i: Id)
    requires i in before && OneOpen(before, before[i].alert)
    ensures OneOpen(WithState(before, i, ExecutingAction), before[i].alert)
            <==> forall j :: j in before && j != i && before[j].alert == before[i].alert
                             ==> Terminal(before[j].state) && before[j].createdAt < before[i].createdAt
  {
    var after := WithState(before, i, ExecutingAction);
    assert !Terminal(after[i].state) && after[i].alert == before[i].alert && after[i].createdAt == before[i].createdAt;
    assert forall j :: j in after ==> j in before && (j != i ==> after[j] == before[j]);
    if OneOpen(after, before[i].alert) {
      forall j | j in before && j != i && before[j].alert == before[i].alert
        ensures Terminal(before[j].state) && before[j].createdAt < before[i].createdAt
      {
        assert j in after && after[j] == before[j];
      }
    }
  }
}
