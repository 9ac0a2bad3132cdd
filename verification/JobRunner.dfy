/** The job store's statements on a table that is updated in place, and one round of a worker. */
module JobRunner {
  import opened Collections
  import opened Domain
  import Q = JobQueue

  class JobStore {
    var jobs: map<Id, Q.Job>
    var now: int // the database clock

    constructor ()
      ensures Valid() && jobs == map[]
    {
      jobs, now := map[], 0;
    }

    ghost predicate Valid()
      reads this
    {
      forall id :: id in jobs ==> jobs[id].id == id
    }

    /** Attempts left, available, and queued or with a lease that has run out. */
    static predicate Due(job: Q.Job, now: int) {
      && job.attempts < job.maxAttempts && job.availableAt <= now
      && (job.status == Q.Queued || (job.status == Q.Running && job.leaseUntil.Some? && job.leaseUntil.value < now))
    }

    /** The order in which ClaimJob serves the rows. */
    static predicate Before(a: Q.Job, b: Q.Job) {
      a.availableAt < b.availableAt || (a.availableAt == b.availableAt && a.createdAt < b.createdAt)
    }

    /** The first claimable row, if there is one. */
    method FirstClaimable() returns (first: Option<Id>)
      requires Valid()
      ensures first.None? ==> forall id :: id in jobs ==> !Due(jobs[id], now)
      ensures first.Some? ==> && first.value in jobs && Due(jobs[first.value], now)
                              && forall id :: id in jobs && Due(jobs[id], now) ==> !Before(jobs[id], jobs[first.value])
    {
      first := None;
      var todo := jobs.Keys;
      while todo != {}
        invariant todo <= jobs.Keys
        invariant first.None? ==> forall id :: id in jobs && id !in todo ==> !Q.Claimable(jobs[id], now)
        invariant first.Some? ==>
                    && first.value in jobs && Q.Claimable(jobs[first.value], now)
                    && forall id :: id in jobs && id !in todo && Q.Claimable(jobs[id], now) ==> !Before(jobs[id], jobs[first.value])
        decreases |todo|
      {
        var id := Pick(todo);
        if Q.Claimable(jobs[id], now) && (first.None? || Before(jobs[id], jobs[first.value])) {
          first := Some(id);
        }
        todo := todo - {id};
      }
    }

    /** ClaimJob: lease the first claimable row. */
    method ClaimJob(worker: int, until: int) returns (job: Option<Q.Job>)
      requires Valid()
      modifies this`jobs
      ensures Valid()
      ensures job.None? ==> jobs == old(jobs) && forall id :: id in jobs ==> !Due(jobs[id], now)
      ensures job.Some? ==>
                && job.value.id in old(jobs)
                && var row := old(jobs)[job.value.id];
                   && Due(row, now) && jobs == old(jobs)[row.id := job.value]
                   && job.value == row.(status := Q.Running, attempts := row.attempts + 1, owner := Some(worker), leaseUntil := Some(until))
                   && forall id :: id in old(jobs) && Due(old(jobs)[id], now)
                                   ==> row.availableAt < old(jobs)[id].availableAt
                                       || (row.availableAt == old(jobs)[id].availableAt && row.createdAt <= old(jobs)[id].createdAt)
    {
      var first := FirstClaimable();
      if first.None? {
        return None;
      }
      var claimed := Q.Claimed(jobs[first.value], worker, until);
      assert jobs[first.value].id == first.value;
      jobs := jobs[first.value := claimed];
      job := Some(claimed);
    }

    method CompleteJob(id: Id, worker: int) returns (found: bool)
      requires Valid()
      modifies this`jobs
      ensures Valid()
      ensures var write := Q.CompleteJob(old(jobs), id, worker);
              found == write.Some? && jobs == if write.Some? then write.value else old(jobs)
    {
      found := id in jobs && jobs[id].status == Q.Running && jobs[id].owner == Some(worker);
      if found {
        jobs := jobs[id := jobs[id].(status := Q.JobSucceeded, owner := None, leaseUntil := None)];
      }
    }

    method FailJob(id: Id, worker: int, retryAt: int, terminal: bool) returns (found: bool)
      requires Valid()
      modifies this`jobs
      ensures Valid()
      ensures var write := Q.FailJob(old(jobs), id, worker, retryAt, terminal);
              found == write.Some? && jobs == if write.Some? then write.value else old(jobs)
    {
      var status := Q.Queued;
      if terminal {
        status := Q.DeadLetter;
      }
      found := id in jobs && jobs[id].status == Q.Running && jobs[id].owner == Some(worker);
      if found {
        jobs := jobs[id := jobs[id].(status := status, availableAt := retryAt, owner := None, leaseUntil := None)];
      }
    }

    /** The row with the dedup key. */
    method FindDedup(dedup: int) returns (found: Option<Id>)
      requires Valid()
      ensures found.Some? <==> Q.Deduplicated(jobs, dedup)
      ensures found.Some? ==> found.value in jobs && jobs[found.value].dedup == dedup
    {
      var todo := jobs.Keys;
      while todo != {}
        invariant todo <= jobs.Keys
        invariant forall id :: id in jobs && id !in todo ==> jobs[id].dedup != dedup
        decreases |todo|
      {
        var id := Pick(todo);
        if jobs[id].dedup == dedup {
          return Some(id);
        }
        todo := todo - {id};
      }
      found := None;
    }

    method EnqueueJob(job: Q.Job)
      requires Valid() && job.id !in jobs
      modifies this`jobs
      ensures Valid() && jobs == Q.EnqueueJob(old(jobs), job)
    {
      var found := FindDedup(job.dedup);
      if found.None? {
        jobs := jobs[job.id := job.(status := Q.Queued, owner := None, leaseUntil := None)];
      }
    }

    /** The row with the dedup key is queued again if it was dead. */
    ghost predicate RequeuedAt(before: map<Id, Q.Job>, after: map<Id, Q.Job>, id: Id, dedup: int, changed: bool)
      requires id in before
      reads this
    {
      && before[id].dedup == dedup
      && after == before[id := Q.Requeued(before[id], now)]
      && after == (if before[id].status == Q.DeadLetter
                   then before[id := before[id].(status := Q.Queued, attempts := 0, availableAt := now, owner := None, leaseUntil := None)]
                   else before)
      && changed == (before[id].status == Q.DeadLetter)
    }

    /** RecoverTriageJobs for one triaging incident: a new row, or a dead letter queued again. */
    method RecoverTriageJob(id: Id, dedup: int) returns (changed: bool)
      requires Valid() && id !in jobs
      modifies this`jobs
      ensures Valid()
      ensures !Q.Deduplicated(old(jobs), dedup) ==>
                changed && jobs == old(jobs)[id := Q.RecoveredRow(id, dedup, now)]
                && jobs == old(jobs)[id := Q.Job(id, dedup, Q.Queued, 0, 3, now, now, None, None)]
      ensures Q.Deduplicated(old(jobs), dedup) ==>
                exists other :: other in old(jobs) && RequeuedAt(old(jobs), jobs, other, dedup, changed)
    {
      var found := FindDedup(dedup);
      if found.None? {
        jobs := jobs[id := Q.RecoveredRow(id, dedup, now)];
        return true;
      }
      changed := jobs[found.value].status == Q.DeadLetter;
      if changed {
        jobs := jobs[found.value := jobs[found.value].(status := Q.Queued, attempts := 0, availableAt := now, owner := None, leaseUntil := None)];
      }
      assert RequeuedAt(old(jobs), jobs, found.value, dedup, changed);
    }

    /** RecoverTriageJobs: every triaging incident's key gets a queued row, a dead letter a fresh start;
        the count is that of the rows written. */
    method RecoverTriageJobs(triaging: seq<Triaging>) returns (count: nat)
      requires Valid() && Q.DedupUnique(jobs) && Fresh(jobs, triaging)
      modifies this`jobs
      ensures Valid() && Q.DedupUnique(jobs)
      ensures AllRecovered(old(jobs), jobs, triaging, now)
      ensures count == Written(old(jobs), triaging)
    {
      hide AllRecovered, Q.DedupUnique, Written, Fresh;
      count := 0;
      var k := 0;
      NoneRecovered(jobs, triaging[..0], now);
      while k < |triaging|
        invariant 0 <= k <= |triaging| && Valid() && Q.DedupUnique(jobs)
        invariant AllRecovered(old(jobs), jobs, triaging[..k], now)
        invariant count == Written(old(jobs), triaging[..k])
      {
        ghost var before := jobs;
        KeyUntouched(old(jobs), before, triaging, k, now);
        var changed := RecoverTriageJob(triaging[k].id, triaging[k].dedup);
        RecoveredOne(old(jobs), before, jobs, triaging, k, now, changed);
        WrittenMore(old(jobs), triaging, k);
        if changed {
          count := count + 1;
        }
        k := k + 1;
      }
      assert triaging[..k] == triaging;
    }
  }

  // ----- All triaging incidents

  /** A triaging incident: its dedup key, and the id of the row it may need. */
  datatype Triaging = Triaging(id: Id, dedup: int)

  /** New row ids, and no key twice. */
  ghost predicate Fresh(jobs: map<Id, Q.Job>, triaging: seq<Triaging>) {
    && (forall k :: 0 <= k < |triaging| ==> triaging[k].id !in jobs)
    && (forall j, k :: 0 <= j < k < |triaging| ==> triaging[j].id != triaging[k].id && triaging[j].dedup != triaging[k].dedup)
  }

  ghost predicate Listed(triaging: seq<Triaging>, dedup: int) {
    exists k :: 0 <= k < |triaging| && triaging[k].dedup == dedup
  }

  /** The key has no row, or a dead one. */
  predicate Needed(jobs: map<Id, Q.Job>, dedup: int) {
    !exists id :: id in jobs && Alive(jobs[id], dedup)
  }

  predicate Alive(job: Q.Job, dedup: int) {
    job.dedup == dedup && job.status != Q.DeadLetter
  }

  /** How many rows have to be written. */
  ghost function Written(jobs: map<Id, Q.Job>, triaging: seq<Triaging>): nat {
    if triaging == [] then 0
    else Written(jobs, triaging[..|triaging| - 1]) + if Needed(jobs, triaging[|triaging| - 1].dedup) then 1 else 0
  }

  ghost predicate RowRecovered(before: map<Id, Q.Job>, after: map<Id, Q.Job>, triaging: seq<Triaging>, now: int, id: Id)
    requires id in before
  {
    id in after && after[id] == if Listed(triaging, before[id].dedup) then Q.Requeued(before[id], now) else before[id]
  }

  ghost predicate Stands(triaging: seq<Triaging>, id: Id, dedup: int) {
    exists k :: 0 <= k < |triaging| && triaging[k].id == id && triaging[k].dedup == dedup
  }

  /** Old rows are requeued if they are dead and listed, unknown keys get their row, and no more. */
  ghost predicate AllRecovered(before: map<Id, Q.Job>, after: map<Id, Q.Job>, triaging: seq<Triaging>, now: int) {
    && (forall id :: id in before ==> RowRecovered(before, after, triaging, now, id))
    && (forall k :: 0 <= k < |triaging| ==> RowInserted(before, after, triaging[k], now))
    && (forall id :: id in after && id !in before ==> Stands(triaging, id, after[id].dedup))
  }

  ghost predicate RowInserted(before: map<Id, Q.Job>, after: map<Id, Q.Job>, incident: Triaging, now: int) {
    !Q.Deduplicated(before, incident.dedup)
    ==> incident.id in after && after[incident.id] == Q.RecoveredRow(incident.id, incident.dedup, now)
  }

  lemma WrittenMore(jobs: map<Id, Q.Job>, triaging: seq<Triaging>, k: nat)
    requires k < |triaging|
    ensures Written(jobs, triaging[..k + 1]) == Written(jobs, triaging[..k]) + if Needed(jobs, triaging[k].dedup) then 1 else 0
  {
    assert triaging[..k + 1][..k] == triaging[..k];
  }

  lemma NoneRecovered(jobs: map<Id, Q.Job>, none: seq<Triaging>, now: int)
    requires none == []
    ensures AllRecovered(jobs, jobs, none, now) && Written(jobs, none) == 0
  {
  }

  /** Recovering the first k keys leaves the next one as it was. */
  lemma KeyUntouched(before: map<Id, Q.Job>, jobs: map<Id, Q.Job>, triaging: seq<Triaging>, k: nat, now: int)
    requires k < |triaging| && Fresh(before, triaging) && AllRecovered(before, jobs, triaging[..k], now)
    ensures triaging[k].id !in jobs
    ensures forall id :: id in jobs && jobs[id].dedup == triaging[k].dedup ==> id in before && jobs[id] == before[id]
    ensures forall id :: id in before && before[id].dedup == triaging[k].dedup ==> id in jobs && jobs[id] == before[id]
    ensures Q.Deduplicated(jobs, triaging[k].dedup) <==> Q.Deduplicated(before, triaging[k].dedup)
  {
    var part := triaging[..k];
    assert forall j :: 0 <= j < k ==> part[j] == triaging[j];
    assert !Listed(part, triaging[k].dedup);
    forall id | id in before && before[id].dedup == triaging[k].dedup ensures id in jobs && jobs[id] == before[id] {
      assert RowRecovered(before, jobs, part, now, id);
    }
    forall id | id in jobs && jobs[id].dedup == triaging[k].dedup ensures id in before && jobs[id] == before[id] {
      if id in before {
        assert RowRecovered(before, jobs, part, now, id);
      }
    }
  }

  lemma RecoveredOne(before: map<Id, Q.Job>, middle: map<Id, Q.Job>, after: map<Id, Q.Job>, triaging: seq<Triaging>, k: nat, now: int, changed: bool)
    requires k < |triaging| && Fresh(before, triaging) && Q.DedupUnique(before) && AllRecovered(before, middle, triaging[..k], now)
    requires Q.DedupUnique(middle) && triaging[k].id !in middle
    requires !Q.Deduplicated(middle, triaging[k].dedup) ==>
               changed && after == middle[triaging[k].id := Q.RecoveredRow(triaging[k].id, triaging[k].dedup, now)]
    requires Q.Deduplicated(middle, triaging[k].dedup) ==>
               exists id :: && id in middle && middle[id].dedup == triaging[k].dedup && after == middle[id := Q.Requeued(middle[id], now)]
                            && changed == (middle[id].status == Q.DeadLetter)
    ensures AllRecovered(before, after, triaging[..k + 1], now) && Q.DedupUnique(after)
    ensures changed == Needed(before, triaging[k].dedup)
  {
    hide AllRecovered, Q.DedupUnique, Fresh, Needed;
    if Q.Deduplicated(middle, triaging[k].dedup) {
      var found :| && found in middle && middle[found].dedup == triaging[k].dedup && after == middle[found := Q.Requeued(middle[found], now)]
                   && changed == (middle[found].status == Q.DeadLetter);
      RecoveredOld(before, middle, after, triaging, k, now, found);
    } else {
      RecoveredUnknown(before, middle, after, triaging, k, now);
    }
  }

  /** The next key has a row. */
  lemma RecoveredOld(before: map<Id, Q.Job>, middle: map<Id, Q.Job>, after: map<Id, Q.Job>, triaging: seq<Triaging>, k: nat, now: int, found: Id)
    requires k < |triaging| && Fresh(before, triaging) && Q.DedupUnique(before) && AllRecovered(before, middle, triaging[..k], now)
    requires Q.DedupUnique(middle) && triaging[k].id !in middle
    requires found in middle && middle[found].dedup == triaging[k].dedup && after == middle[found := Q.Requeued(middle[found], now)]
    ensures AllRecovered(before, after, triaging[..k + 1], now) && Q.DedupUnique(after)
    ensures middle[found].status == Q.DeadLetter <==> Needed(before, triaging[k].dedup)
  {
    hide Listed;
    KeyUntouched(before, middle, triaging, k, now);
    ListedMore(triaging, k);
    assert before[found].status != Q.DeadLetter ==> Alive(before[found], triaging[k].dedup);
    forall id | id in before ensures RowRecovered(before, after, triaging[..k + 1], now, id) {
      assert RowRecovered(before, middle, triaging[..k], now, id);
    }
    RecoveredNew(before, middle, after, triaging, k, now);
  }

  /** The next key is unknown. */
  lemma RecoveredUnknown(before: map<Id, Q.Job>, middle: map<Id, Q.Job>, after: map<Id, Q.Job>, triaging: seq<Triaging>, k: nat, now: int)
    requires k < |triaging| && Fresh(before, triaging) && Q.DedupUnique(before) && AllRecovered(before, middle, triaging[..k], now)
    requires Q.DedupUnique(middle) && triaging[k].id !in middle
    requires !Q.Deduplicated(middle, triaging[k].dedup)
    requires after == middle[triaging[k].id := Q.RecoveredRow(triaging[k].id, triaging[k].dedup, now)]
    ensures AllRecovered(before, after, triaging[..k + 1], now) && Q.DedupUnique(after) && Needed(before, triaging[k].dedup)
  {
    hide Listed;
    KeyUntouched(before, middle, triaging, k, now);
    ListedMore(triaging, k);
    forall id | id in before ensures RowRecovered(before, after, triaging[..k + 1], now, id) {
      assert RowRecovered(before, middle, triaging[..k], now, id);
    }
    RecoveredNew(before, middle, after, triaging, k, now);
    hide RowRecovered, Stands, Fresh, Q.DedupUnique;
    var part, more := triaging[..k], triaging[..k + 1];
    forall j | 0 <= j < |more| ensures RowInserted(before, after, more[j], now) {
      if j < k {
        assert part[j] == more[j] && RowInserted(before, middle, part[j], now);
      }
    }
  }

  lemma ListedMore(triaging: seq<Triaging>, k: nat)
    requires k < |triaging|
    ensures forall dedup :: Listed(triaging[..k + 1], dedup) <==> Listed(triaging[..k], dedup) || dedup == triaging[k].dedup
  {
    var part, more := triaging[..k], triaging[..k + 1];
    assert more == part + [triaging[k]];
    assert forall j :: 0 <= j < k ==> more[j] == part[j];
    assert more[k] == triaging[k];
  }

  lemma RecoveredNew(before: map<Id, Q.Job>, middle: map<Id, Q.Job>, after: map<Id, Q.Job>, triaging: seq<Triaging>, k: nat, now: int)
    requires k < |triaging| && AllRecovered(before, middle, triaging[..k], now)
    requires forall id :: id in after && id !in middle ==> id == triaging[k].id && after[id].dedup == triaging[k].dedup
    requires forall id :: id in after && id in middle ==> after[id].dedup == middle[id].dedup
    ensures forall id :: id in after && id !in before ==> Stands(triaging[..k + 1], id, after[id].dedup)
  {
    hide RowRecovered;
    var part, more := triaging[..k], triaging[..k + 1];
    forall id | id in after && id !in before ensures Stands(more, id, after[id].dedup) {
      if id in middle {
        var j :| 0 <= j < |part| && part[j].id == id && middle[id].dedup == part[j].dedup;
        assert more[j] == part[j];
      } else {
        assert more[k] == triaging[k];
      }
    }
  }

  /** What one round of a worker makes of the row it claimed: after n attempts the next one waits n * n
      seconds. */
  function Handled(row: Q.Job, succeeded: bool, now: int): Q.Job {
    var n := row.attempts + 1;
    var freed := row.(attempts := n, owner := None, leaseUntil := None);
    if succeeded then freed.(status := Q.JobSucceeded)
    else freed.(availableAt := now + n * n, status := if n == row.maxAttempts then Q.DeadLetter else Q.Queued)
  }

  /** One round of runWorker: claim, handle, complete or fail with quadratic backoff. When nobody else
      writes in between, the round's last write always takes effect. */
  method Round(store: JobStore, worker: int, lease: int, handler: Q.Job -> bool) returns (idle: bool)
    requires store.Valid()
    modifies store`jobs
    ensures store.Valid()
    ensures idle <==> forall id :: id in old(store.jobs) ==> !JobStore.Due(old(store.jobs)[id], store.now)
    ensures idle ==> store.jobs == old(store.jobs)
    ensures !idle ==>
              exists id :: && id in old(store.jobs) && JobStore.Due(old(store.jobs)[id], store.now)
                           && var row := old(store.jobs)[id];
                              var claimed := row.(status := Q.Running, attempts := row.attempts + 1, owner := Some(worker),
                                                  leaseUntil := Some(store.now + lease));
                              store.jobs == old(store.jobs)[id := Handled(row, handler(claimed), store.now)]
  {
    var job := store.ClaimJob(worker, store.now + lease);
    if job.None? {
      return true;
    }
    ghost var row := old(store.jobs)[job.value.id];
    if handler(job.value) {
      var _ := store.CompleteJob(job.value.id, worker);
    } else {
      var terminal := job.value.attempts >= job.value.maxAttempts;
      var _ := store.FailJob(job.value.id, worker, Q.RetryAt(job.value, store.now), terminal);
    }
    assert store.jobs == old(store.jobs)[row.id := Handled(row, handler(job.value), store.now)];
    idle := false;
  }
}
