/** The leased job queue: table rows, serial workers that claim them, and a clock. Fencing rests only
    on the lease owner and on every worker handling one job at a time. */
module JobQueue {
  import opened Domain

  datatype JobStatus = Queued | Running | JobSucceeded | DeadLetter

  datatype Job = Job(
    id: Id,
    dedup: int, // unique over the table
    status: JobStatus,
    attempts: int,
    maxAttempts: int,
    availableAt: int,
    createdAt: int,
    owner: Option<int>,
    leaseUntil: Option<int>)

  // ----- The rows

  predicate Claimable(job: Job, now: int) {
    && job.attempts < job.maxAttempts
    && job.availableAt <= now
    && (job.status == Queued || (job.status == Running && job.leaseUntil.Some? && job.leaseUntil.value < now))
  }

  function Claimed(job: Job, worker: int, until: int): Job {
    job.(status := Running, attempts := job.attempts + 1, owner := Some(worker), leaseUntil := Some(until))
  }

  /** The guard of CompleteJob and FailJob. */
  predicate HeldBy(jobs: map<Id, Job>, id: Id, worker: int) {
    id in jobs && jobs[id].status == Running && jobs[id].owner == Some(worker)
  }

  function CompleteJob(jobs: map<Id, Job>, id: Id, worker: int): Option<map<Id, Job>> {
    if HeldBy(jobs, id, worker) then Some(jobs[id := jobs[id].(status := JobSucceeded, owner := None, leaseUntil := None)])
    else None
  }

  function FailJob(jobs: map<Id, Job>, id: Id, worker: int, retryAt: int, terminal: bool): Option<map<Id, Job>> {
    if HeldBy(jobs, id, worker) then
      Some(jobs[id := jobs[id].(status := if terminal then DeadLetter else Queued, availableAt := retryAt, owner := None, leaseUntil := None)])
    else None
  }

  predicate Deduplicated(jobs: map<Id, Job>, dedup: int) {
    exists id :: id in jobs && jobs[id].dedup == dedup
  }

  /** Insert, or do nothing when the dedup key is taken. */
  function EnqueueJob(jobs: map<Id, Job>, job: Job): map<Id, Job> {
    if Deduplicated(jobs, job.dedup) then jobs
    else jobs[job.id := job.(status := Queued, owner := None, leaseUntil := None)]
  }

  const TRIAGE_ATTEMPTS := 3

  /** RecoverTriageJobs for one triaging incident without a job. */
  function RecoveredRow(id: Id, dedup: int, now: int): Job {
    Job(id, dedup, Queued, 0, TRIAGE_ATTEMPTS, now, now, None, None)
  }

  /** ... and for one that has a job: only a dead letter is queued again. */
  function Requeued(job: Job, now: int): Job {
    if job.status == DeadLetter then job.(status := Queued, attempts := 0, availableAt := now, owner := None, leaseUntil := None) else job
  }

  // ----- The workers

  /** A worker remembers the row its claim returned; serial numbers the claims. */
  datatype Worker =
    | Idle
    | Handling(job: Job, serial: nat)
    | Failing(job: Job, serial: nat, retryAt: int) // the handler erred; FailJob comes next

  /** What is remembered about a job to state the properties: its most recent claim, whether every
      claim before that one ended in FailJob, and when its handler first failed. */
  datatype Track = Track(latest: nat, clean: bool, first: Option<int>)

  datatype State = State(jobs: map<Id, Job>, workers: map<int, Worker>, tracks: map<Id, Track>, claims: nat, now: int)

  datatype Step =
    | Tick(now: int)
    | Enqueue(job: Job)
    | Insert(id: Id, dedup: int) // RecoverTriageJobs, for one incident
    | Requeue(id: Id)
    | Claim(worker: int, id: Id, until: int, answered: bool) // the answer may be lost
    | Complete(worker: int)
    | Err(worker: int)
    | Fail(worker: int)
    | Drop(worker: int) // the store failed to answer; the worker goes on
    | Crash(workers: set<int>) // the next process starts these

  function RetryAt(job: Job, now: int): int {
    now + job.attempts * job.attempts
  }

  function FreshTrack(claims: nat): Track {
    Track(claims, true, None)
  }

  ghost predicate StepTo(s: State, s': State, step: Step) {
    match step
    case Tick(now) => now >= s.now && s' == s.(now := now)
    case Enqueue(job) =>
      && job.id !in s.jobs && job.attempts == 0 < job.maxAttempts
      && s' == s.(jobs := EnqueueJob(s.jobs, job),
                  tracks := if Deduplicated(s.jobs, job.dedup) then s.tracks else s.tracks[job.id := FreshTrack(s.claims)])
    case Insert(id, dedup) =>
      && id !in s.jobs && !Deduplicated(s.jobs, dedup)
      && s' == s.(jobs := s.jobs[id := RecoveredRow(id, dedup, s.now)], tracks := s.tracks[id := FreshTrack(s.claims)])
    case Requeue(id) =>
      && id in s.jobs && id in s.tracks
      && s' == s.(jobs := s.jobs[id := Requeued(s.jobs[id], s.now)],
                  tracks := if s.jobs[id].status == DeadLetter then s.tracks[id := s.tracks[id].(clean := true, first := None)] else s.tracks)
    case Claim(worker, id, until, answered) =>
      && worker in s.workers && s.workers[worker].Idle? && id in s.jobs && id in s.tracks && Claimable(s.jobs[id], s.now)
      && var job, serial := Claimed(s.jobs[id], worker, until), s.claims + 1;
         s' == s.(jobs := s.jobs[id := job], claims := serial,
                  tracks := s.tracks[id := s.tracks[id].(latest := serial, clean := s.tracks[id].clean && s.jobs[id].status == Queued)],
                  workers := if answered then s.workers[worker := Handling(job, serial)] else s.workers)
    case Complete(worker) =>
      && worker in s.workers && s.workers[worker].Handling?
      && var id := s.workers[worker].job.id;
         s' == s.(jobs := if HeldBy(s.jobs, id, worker) then CompleteJob(s.jobs, id, worker).value else s.jobs,
                  workers := s.workers[worker := Idle])
    case Err(worker) =>
      && worker in s.workers && s.workers[worker].Handling? && s.workers[worker].job.id in s.tracks
      && var job, serial := s.workers[worker].job, s.workers[worker].serial;
         var track := s.tracks[job.id];
         s' == s.(workers := s.workers[worker := Failing(job, serial, RetryAt(job, s.now))],
                  tracks := if track.latest == serial && job.attempts == 1 then s.tracks[job.id := track.(first := Some(s.now))] else s.tracks)
    case Fail(worker) =>
      && worker in s.workers && s.workers[worker].Failing?
      && var job := s.workers[worker].job;
         s' == s.(jobs := if HeldBy(s.jobs, job.id, worker)
                          then FailJob(s.jobs, job.id, worker, s.workers[worker].retryAt, job.attempts >= job.maxAttempts).value else s.jobs,
                  workers := s.workers[worker := Idle])
    case Drop(worker) => worker in s.workers && s' == s.(workers := s.workers[worker := Idle])
    case Crash(workers) => s' == s.(workers := map w | w in workers :: Idle)
  }

  ghost predicate Next(s: State, s': State) {
    exists step :: StepTo(s, s', step)
  }

  ghost predicate Init(s: State) {
    s.jobs == map[] && s.tracks == map[] && forall w :: w in s.workers ==> s.workers[w].Idle?
  }

  ghost predicate StepAt(run: seq<State>, k: int)
    requires 0 < k < |run|
  {
    Next(run[k - 1], run[k])
  }

  ghost predicate Run(run: seq<State>) {
    && run != [] && Init(run[0])
    && forall k :: 0 < k < |run| ==> StepAt(run, k)
  }

  // ----- The invariant

  /** The shapes a row can have. */
  predicate RowShape(job: Job) {
    && 0 <= job.attempts <= job.maxAttempts && 0 < job.maxAttempts
    && (job.status == Queued ==> job.attempts < job.maxAttempts)
    && (job.status == Running ==> job.attempts > 0 && job.owner.Some? && job.leaseUntil.Some?)
    && (job.status == DeadLetter ==> job.attempts == job.maxAttempts)
  }

  function SumSquares(n: nat): nat {
    if n == 0 then 0 else SumSquares(n - 1) + n * n
  }

  /** The first n pauses lie between the first failure and the time. */
  predicate Since(track: Track, time: int, n: nat) {
    track.first.Some? && time >= track.first.value + SumSquares(n)
  }

  /** What the backoff has bought a job whose claims all ended in FailJob. */
  ghost predicate BackedOff(job: Job, track: Track, now: int)
    requires RowShape(job)
  {
    track.clean ==>
      match job.status
      case Queued => job.attempts > 0 ==> Since(track, job.availableAt, job.attempts)
      case Running => job.attempts > 1 ==> Since(track, now, job.attempts - 1)
      case DeadLetter => Since(track, now, job.attempts - 1)
      case JobSucceeded => true
  }

  ghost predicate RowInv(s: State, id: Id)
    requires id in s.jobs
  {
    && s.jobs[id].id == id && RowShape(s.jobs[id])
    && id in s.tracks && s.tracks[id].latest <= s.claims
    && BackedOff(s.jobs[id], s.tracks[id], s.now)
  }

  /** A worker holds the job's most recent claim exactly when the row names it, and then its copy is
      up to date. */
  ghost predicate Fenced(s: State, w: int)
    requires w in s.workers && !s.workers[w].Idle?
  {
    var worker := s.workers[w];
    && worker.job.id in s.jobs && worker.job.id in s.tracks
    && worker.serial <= s.claims
    && worker.job.maxAttempts == s.jobs[worker.job.id].maxAttempts
    && (HeldBy(s.jobs, worker.job.id, w) <==> s.tracks[worker.job.id].latest == worker.serial)
    && (HeldBy(s.jobs, worker.job.id, w) ==> s.jobs[worker.job.id].attempts == worker.job.attempts)
  }

  ghost predicate Patient(s: State, w: int)
    requires w in s.workers && s.workers[w].Failing? && Fenced(s, w)
  {
    var worker := s.workers[w];
    var track := s.tracks[worker.job.id];
    track.latest == worker.serial && track.clean && worker.job.attempts > 0 ==>
      && Since(track, worker.retryAt, worker.job.attempts)
      && Since(track, s.now, worker.job.attempts - 1)
  }

  ghost predicate WorkerInv(s: State, w: int)
    requires w in s.workers
  {
    !s.workers[w].Idle? ==> Fenced(s, w) && (s.workers[w].Failing? ==> Patient(s, w))
  }

  ghost predicate DedupUnique(jobs: map<Id, Job>) {
    forall i, j :: i in jobs && j in jobs && jobs[i].dedup == jobs[j].dedup ==> i == j
  }

  ghost predicate Inv(s: State) {
    && (forall id :: id in s.jobs ==> RowInv(s, id))
    && (forall w :: w in s.workers ==> WorkerInv(s, w))
    && DedupUnique(s.jobs)
  }

  lemma StepKeepsRow(s: State, s': State, step: Step, id: Id)
    requires Inv(s) && StepTo(s, s', step) && id in s'.jobs
    ensures RowInv(s', id)
  {
    hide Deduplicated, DedupUnique;
    assert id in s.jobs ==> RowInv(s, id);
    match step
    case Tick(_) =>
    case Enqueue(_) =>
    case Insert(_, _) =>
    case Requeue(_) =>
    case Claim(_, _, _, _) =>
    case Complete(w) => assert WorkerInv(s, w);
    case Err(w) => assert WorkerInv(s, w);
    case Fail(w) => assert WorkerInv(s, w);
    case Drop(_) =>
    case Crash(_) =>
  }

  /** Workers at work in the new state were at work before, apart from the one that just claimed. */
  lemma StepKeepsFenced(s: State, s': State, step: Step, w: int)
    requires Inv(s) && StepTo(s, s', step) && w in s'.workers && !s'.workers[w].Idle?
    ensures Fenced(s', w)
  {
    hide Deduplicated, DedupUnique, BackedOff, Patient;
    assert w in s.workers ==> WorkerInv(s, w);
    if w in s.workers && !s.workers[w].Idle? {
      assert RowInv(s, s.workers[w].job.id);
    }
    match step
    case Tick(_) =>
    case Enqueue(_) =>
    case Insert(_, _) =>
    case Requeue(_) =>
    case Claim(_, id, _, _) => assert RowInv(s, id);
    case Complete(v) => assert WorkerInv(s, v);
    case Err(v) =>
    case Fail(v) => assert WorkerInv(s, v);
    case Drop(_) =>
    case Crash(_) =>
  }

  lemma StepKeepsPatient(s: State, s': State, step: Step, w: int)
    requires Inv(s) && StepTo(s, s', step) && w in s'.workers && s'.workers[w].Failing? && Fenced(s', w)
    ensures Patient(s', w)
  {
    hide Deduplicated, DedupUnique;
    assert w in s.workers && WorkerInv(s, w);
    assert RowInv(s, s.workers[w].job.id);
    match step
    case Tick(_) =>
    case Enqueue(_) =>
    case Insert(_, _) =>
    case Requeue(_) =>
    case Claim(_, _, _, _) =>
    case Complete(_) =>
    case Err(v) => assert v != w ==> WorkerInv(s, v);
    case Fail(_) =>
    case Drop(_) =>
    case Crash(_) =>
  }

  lemma StepKeepsDedup(s: State, s': State, step: Step)
    requires Inv(s) && StepTo(s, s', step)
    ensures DedupUnique(s'.jobs)
  {
    hide RowInv, WorkerInv;
    match step
    case Tick(_) =>
    case Enqueue(_) =>
    case Insert(_, _) =>
    case Requeue(_) =>
    case Claim(_, _, _, _) =>
    case Complete(_) =>
    case Err(_) =>
    case Fail(_) =>
    case Drop(_) =>
    case Crash(_) =>
  }

  lemma NextKeeps(s: State, s': State)
    requires Inv(s) && Next(s, s')
    ensures Inv(s')
  {
    hide RowInv, Fenced, Patient, DedupUnique, StepTo;
    var step :| StepTo(s, s', step);
    forall id | id in s'.jobs ensures RowInv(s', id) {
      StepKeepsRow(s, s', step, id);
    }
    forall w | w in s'.workers ensures WorkerInv(s', w) {
      if !s'.workers[w].Idle? {
        StepKeepsFenced(s, s', step, w);
        if s'.workers[w].Failing? {
          StepKeepsPatient(s, s', step, w);
        }
      }
    }
    StepKeepsDedup(s, s', step);
  }

  lemma {:induction false} InvariantHolds(run: seq<State>, k: nat)
    requires Run(run) && k < |run|
    ensures Inv(run[k])
  {
    if k > 0 {
      InvariantHolds(run, k - 1);
      hide Inv;
      assert StepAt(run, k);
      NextKeeps(run[k - 1], run[k]);
    }
  }

  // ----- Fencing

  /** In every reachable state, whatever leases expired, answers were lost and processes crashed: the
      write of a worker takes effect exactly when it comes from the job's most recent claim, and then
      the attempt count the worker decides by is the stored one. */
  lemma EffectiveWritesAreFenced(run: seq<State>, k: nat, w: int, retryAt: int, terminal: bool)
    requires Run(run) && k < |run| && w in run[k].workers && !run[k].workers[w].Idle?
    ensures var s, worker := run[k], run[k].workers[w];
            var effective := CompleteJob(s.jobs, worker.job.id, w).Some?;
            && worker.job.id in s.jobs && worker.job.id in s.tracks
            && (effective <==> FailJob(s.jobs, worker.job.id, w, retryAt, terminal).Some?)
            && (effective <==> s.tracks[worker.job.id].latest == worker.serial)
            && (effective ==> s.jobs[worker.job.id].attempts == worker.job.attempts
                              && s.jobs[worker.job.id].maxAttempts == worker.job.maxAttempts)
  {
    InvariantHolds(run, k);
    assert WorkerInv(run[k], w);
  }

  /** At most one worker can still write to a job. */
  lemma OneEffectiveWriter(run: seq<State>, k: nat, id: Id, v: int, w: int)
    requires Run(run) && k < |run| && HeldBy(run[k].jobs, id, v) && HeldBy(run[k].jobs, id, w)
    ensures v == w && id in run[k].tracks
    ensures forall u :: u in run[k].workers && !run[k].workers[u].Idle? && run[k].workers[u].job.id == id && u != v
                        ==> run[k].workers[u].serial != run[k].tracks[id].latest
  {
    InvariantHolds(run, k);
    assert RowInv(run[k], id);
    forall u | u in run[k].workers && !run[k].workers[u].Idle? && run[k].workers[u].job.id == id && u != v
      ensures run[k].workers[u].serial != run[k].tracks[id].latest
    {
      assert WorkerInv(run[k], u);
    }
  }

  // ----- The life of a job

  /** Attempts never pass the limit; a queued job has attempts left; only a job that used all of them
      becomes a dead letter; dedup keys are unique. */
  lemma RowsAreConsistent(run: seq<State>, k: nat, id: Id)
    requires Run(run) && k < |run| && id in run[k].jobs
    ensures var job := run[k].jobs[id];
            && 0 <= job.attempts <= job.maxAttempts
            && (job.status == Queued ==> job.attempts < job.maxAttempts)
            && (job.status == DeadLetter ==> job.attempts == job.maxAttempts)
            && (forall other :: other in run[k].jobs && run[k].jobs[other].dedup == job.dedup ==> other == id)
  {
    InvariantHolds(run, k);
    assert RowInv(run[k], id);
  }

  /** A job that is neither done nor dead can never be claimed again exactly when it is running on its
      last attempt. */
  lemma NeverClaimableIff(run: seq<State>, k: nat, id: Id)
    requires Run(run) && k < |run| && id in run[k].jobs && run[k].jobs[id].status in {Queued, Running}
    ensures var job := run[k].jobs[id];
            (forall t :: t >= run[k].now ==> !Claimable(job, t)) <==> job.status == Running && job.attempts == job.maxAttempts
  {
    InvariantHolds(run, k);
    assert RowInv(run[k], id);
    var job := run[k].jobs[id];
    var ready := if run[k].now > job.availableAt then run[k].now else job.availableAt;
    var late := if job.leaseUntil.Some? && ready <= job.leaseUntil.value then job.leaseUntil.value + 1 else ready;
    assert late >= run[k].now && (job.attempts < job.maxAttempts ==> Claimable(job, late));
  }

  /** The row's last attempt is running. */
  predicate OnLastAttempt(s: State, id: Id) {
    id in s.jobs && s.jobs[id].status == Running && s.jobs[id].attempts == s.jobs[id].maxAttempts
  }

  ghost predicate Holds(s: State, w: int, id: Id) {
    w in s.workers && !s.workers[w].Idle? && s.workers[w].job.id == id && HeldBy(s.jobs, id, w)
  }

  /** The row is running on its last attempt and no worker of the present process holds it. */
  ghost predicate Stranded(s: State, id: Id) {
    OnLastAttempt(s, id) && forall w :: !Holds(s, w, id)
  }

  /** What strands a job: a crash during its last attempt, an unanswered completion or failure of the
      worker that holds it then, or an unanswered claim that begins it; and nothing else. */
  lemma StrandedWhen(s: State, s': State, step: Step, id: Id)
    requires Inv(s) && StepTo(s, s', step) && !Stranded(s, id)
    ensures Stranded(s', id)
            <==> || (OnLastAttempt(s, id) && (step.Crash? || (step.Drop? && Holds(s, step.worker, id))))
                 || (step.Claim? && step.id == id && !step.answered && s.jobs[id].attempts + 1 == s.jobs[id].maxAttempts)
  {
    hide BackedOff, Patient;
    assert id in s.jobs ==> RowInv(s, id);
    if w :| Holds(s, w, id) {
      assert WorkerInv(s, w);
      NobodyElseHolds(s, w, id);
      assert w in s'.workers && s'.workers[w] == s.workers[w] && id in s'.jobs && s'.jobs[id] == s.jobs[id] ==> Holds(s', w, id);
    }
    match step
    case Tick(_) =>
    case Enqueue(_) =>
    case Insert(_, _) =>
    case Requeue(_) =>
    case Claim(v, _, _, _) => assert Holds(s', v, id) <==> step.id == id && step.answered;
    case Complete(w) => assert WorkerInv(s, w);
    case Err(w) => assert WorkerInv(s, w) && (Holds(s, w, id) ==> Holds(s', w, id));
    case Fail(w) => assert WorkerInv(s, w);
    case Drop(_) =>
    case Crash(_) =>
  }

  lemma NobodyElseHolds(s: State, w: int, id: Id)
    requires Holds(s, w, id)
    ensures forall v :: Holds(s, v, id) ==> v == w
  {
  }

  lemma StrandedRowKept(s: State, s': State, step: Step, id: Id)
    requires Inv(s) && Stranded(s, id) && StepTo(s, s', step)
    ensures id in s'.jobs && s'.jobs[id] == s.jobs[id]
  {
    hide BackedOff, Patient;
    assert RowInv(s, id);
    match step
    case Complete(w) => assert WorkerInv(s, w) && !Holds(s, w, id);
    case Fail(w) => assert WorkerInv(s, w) && !Holds(s, w, id);
    case _ =>
  }

  /** Neither claims nor recovery, nor anything else, touch a stranded row again. */
  lemma StrandedForever(s: State, s': State, id: Id)
    requires Inv(s) && Stranded(s, id) && Next(s, s')
    ensures Stranded(s', id) && s'.jobs[id] == s.jobs[id]
  {
    hide BackedOff, Patient, Deduplicated;
    var step :| StepTo(s, s', step);
    StrandedRowKept(s, s', step, id);
    forall v ensures !Holds(s', v, id) {
      assert !Holds(s, v, id);
      match step
      case Claim(_, other, _, _) => assert RowInv(s, id) && RowInv(s, other);
      case _ =>
    }
  }

  ghost predicate Leads(s: State, s': State, n: nat)
    decreases n
  {
    if n == 0 then s == s' else exists m :: Next(s, m) && Leads(m, s', n - 1)
  }

  lemma LeadsOn(s: State, m: State, s': State, step: Step, n: nat)
    requires StepTo(s, m, step) && Leads(m, s', n)
    ensures Leads(s, s', n + 1)
  {
    assert Next(s, m);
  }

  /** Some continuation changes the row. */
  ghost predicate Changeable(s: State, id: Id) {
    exists n: nat, m, m' :: Leads(s, m, n) && Changes(m, m', id)
  }

  ghost predicate Changes(s: State, s': State, id: Id) {
    id in s.jobs && id in s'.jobs && s'.jobs[id] != s.jobs[id] && Next(s, s')
  }

  lemma {:induction false} StrandedStays(s: State, s': State, n: nat, id: Id)
    requires Inv(s) && Stranded(s, id) && Leads(s, s', n)
    ensures Inv(s') && Stranded(s', id) && s'.jobs[id] == s.jobs[id]
    decreases n
  {
    hide Inv, Stranded, Next;
    if n > 0 {
      var m :| Next(s, m) && Leads(m, s', n - 1);
      StrandedForever(s, m, id);
      NextKeeps(s, m);
      StrandedStays(m, s', n - 1, id);
    }
  }

  /** A job with attempts left: the process restarts, any lease runs out, and a worker claims it. */
  lemma AttemptsLeft(s: State, id: Id)
    requires Inv(s) && id in s.jobs && s.jobs[id].status in {Queued, Running} && !OnLastAttempt(s, id)
    ensures Changeable(s, id)
  {
    assert RowInv(s, id);
    var job := s.jobs[id];
    var ready := if s.now > job.availableAt then s.now else job.availableAt;
    var late := if job.leaseUntil.Some? && ready <= job.leaseUntil.value then job.leaseUntil.value + 1 else ready;
    var workers := {0};
    var s1 := s.(workers := map w | w in workers :: Idle);
    var s2 := s1.(now := late);
    var s3 := s2.(jobs := s2.jobs[id := Claimed(job, 0, late)], claims := s2.claims + 1,
                  tracks := s2.tracks[id := s2.tracks[id].(latest := s2.claims + 1, clean := s2.tracks[id].clean && job.status == Queued)]);
    assert StepTo(s2, s3, Claim(0, id, late, false));
    LeadsOn(s1, s2, s2, Tick(late), 0);
    LeadsOn(s, s1, s2, Crash(workers), 1);
    assert Changes(s2, s3, id);
  }

  /** A job on its last attempt that a worker holds: the worker can still write. */
  lemma HolderCanWrite(s: State, id: Id, w: int)
    requires Inv(s) && OnLastAttempt(s, id) && Holds(s, w, id)
    ensures Changeable(s, id)
  {
    var worker := s.workers[w];
    var jobs := if worker.Handling? then CompleteJob(s.jobs, id, w).value
                else FailJob(s.jobs, id, w, worker.retryAt, worker.job.attempts >= worker.job.maxAttempts).value;
    var s' := s.(jobs := jobs, workers := s.workers[w := Idle]);
    assert StepTo(s, s', if worker.Handling? then Complete(w) else Fail(w));
    assert Changes(s, s', id) && Leads(s, s, 0);
  }

  /** In every reachable state an unfinished job can still change if and only if it is not stranded. */
  lemma ChangeableIff(run: seq<State>, k: nat, id: Id)
    requires Run(run) && k < |run| && id in run[k].jobs && run[k].jobs[id].status in {Queued, Running}
    ensures Changeable(run[k], id) <==> !Stranded(run[k], id)
  {
    hide Run, Inv, Leads, Changes;
    InvariantHolds(run, k);
    var s := run[k];
    if Stranded(s, id) {
      if Changeable(s, id) {
        var n: nat, m, m' :| Leads(s, m, n) && Changes(m, m', id);
        StrandedStays(s, m, n, id);
        ChangesNotStranded(m, m', id);
        assert false;
      }
    } else if OnLastAttempt(s, id) {
      var w :| Holds(s, w, id);
      HolderCanWrite(s, id, w);
    } else {
      AttemptsLeft(s, id);
    }
  }

  lemma ChangesNotStranded(s: State, s': State, id: Id)
    requires Inv(s) && Changes(s, s', id)
    ensures !Stranded(s, id)
  {
    hide Inv, Next;
    if Stranded(s, id) {
      StrandedForever(s, s', id);
      assert false;
    }
  }

  // ----- Backoff

  lemma CubicStep(n: nat)
    requires n > 0
    ensures (n - 1) * n * (2 * n - 1) + 6 * (n * n) == n * (n + 1) * (2 * n + 1)
  {
    var s := n * n;
    assert (n - 1) * n == s - n && n * (n + 1) == s + n;
    assert (s - n) * (2 * n - 1) == 2 * (s * n) - s - 2 * s + n;
    assert (s + n) * (2 * n + 1) == 2 * (s * n) + s + 2 * s + n;
  }

  lemma {:induction false} SumSquaresClosed(n: nat)
    ensures 6 * SumSquares(n) == n * (n + 1) * (2 * n + 1)
  {
    if n > 0 {
      SumSquaresClosed(n - 1);
      CubicStep(n);
    }
  }

  /** A job of n attempts whose claims all ended in FailJob is dead-lettered no sooner than
      (n-1)n(2n-1)/6 seconds after its first failure. */
  lemma BackoffBound(run: seq<State>, k: nat, id: Id)
    requires Run(run) && 0 < k < |run| && id in run[k].jobs && id in run[k - 1].jobs
    requires run[k].jobs[id].status == DeadLetter && run[k - 1].jobs[id].status != DeadLetter
    requires id in run[k].tracks && run[k].tracks[id].clean
    ensures var n := run[k].jobs[id].maxAttempts;
            && run[k].tracks[id].first.Some?
            && 6 * (run[k].now - run[k].tracks[id].first.value) >= (n - 1) * n * (2 * n - 1)
  {
    InvariantHolds(run, k);
    assert RowInv(run[k], id);
    SumSquaresClosed(run[k].jobs[id].maxAttempts - 1);
  }
}
