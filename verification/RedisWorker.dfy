/** Workers of the Redis stream, each of which may be killed between any two commands. */
module RedisWorker {
  import opened Collections
  import opened Domain

  datatype Fault = Healthy | Stall | Fail

  /** The stream with its consumer group, the set-if-absent keys and the counters. Job ids are what the
      entries carry; entries, by message id, remembers those that were deleted too. */
  datatype Store = Store(
    entries: map<Id, Id>,
    stream: set<Id>,
    delivered: set<Id>,
    processed: set<Id>,
    counter: nat,
    errors: nat,
    fault: Fault,
    paused: bool)

  datatype Worker =
    | Polling
    | Reading(fault: Fault) // the loop read the flags
    | Holding(message: Id, fault: Fault)
    | Marked(message: Id) // set-if-absent succeeded, the counter not yet incremented
    | Counted(message: Id)
    | Acked(message: Id)

  // ----- Commands

  function Deliver(store: Store, message: Id): Store {
    store.(delivered := store.delivered + {message})
  }

  function SetIfAbsent(store: Store, job: Id): Store {
    store.(processed := store.processed + {job})
  }

  function Increment(store: Store): Store {
    store.(counter := store.counter + 1)
  }

  function Delete(store: Store, message: Id): Store {
    store.(stream := store.stream - {message})
  }

  // ----- The system

  /** Of the killed workers, lost counts those before the increment and left those that had a message. */
  datatype State = State(store: Store, workers: map<int, Worker>, lost: nat, left: nat)

  datatype Step =
    | Add(message: Id, job: Id)
    | SetFlags(fault: Fault, paused: bool)
    | Start(worker: int)
    | Kill(worker: int)
    | Poll(worker: int)
    | Read(worker: int, message: Id)
    | Work(worker: int) // the next command of a worker that has a message

  ghost predicate StepTo(s: State, s': State, step: Step) {
    match step
    case Add(message, job) =>
      message !in s.store.entries
      && s' == s.(store := s.store.(entries := s.store.entries[message := job], stream := s.store.stream + {message}))
    case SetFlags(fault, paused) => s' == s.(store := s.store.(fault := fault, paused := paused))
    case Start(worker) => worker !in s.workers && s' == s.(workers := s.workers[worker := Polling])
    case Kill(worker) =>
      && worker in s.workers
      && s' == s.(workers := s.workers - {worker},
                  lost := s.lost + (if s.workers[worker].Marked? then 1 else 0),
                  left := s.left + (if HasMessage(s.workers[worker]) then 1 else 0))
    case Poll(worker) =>
      && worker in s.workers && s.workers[worker].Polling?
      && s' == if s.store.paused || s.store.fault == Stall then s else s.(workers := s.workers[worker := Reading(s.store.fault)])
    case Read(worker, message) => // only entries that were never delivered are handed out
      && worker in s.workers && s.workers[worker].Reading? && message in s.store.stream && message !in s.store.delivered
      && s' == s.(store := Deliver(s.store, message), workers := s.workers[worker := Holding(message, s.workers[worker].fault)])
    case Work(worker) => worker in s.workers && s' == WorkStep(s, worker, s.workers[worker])
  }

  function WorkStep(s: State, w: int, worker: Worker): State {
    match worker
    case Polling => s
    case Reading(_) => s.(workers := s.workers[w := Polling]) // nothing to read
    case Holding(message, fault) =>
      if message !in s.store.entries then s
      else if fault == Fail then s.(store := s.store.(errors := s.store.errors + 1), workers := s.workers[w := Polling])
      else if s.store.entries[message] in s.store.processed then s.(workers := s.workers[w := Counted(message)])
      else s.(store := SetIfAbsent(s.store, s.store.entries[message]), workers := s.workers[w := Marked(message)])
    case Marked(message) => s.(store := Increment(s.store), workers := s.workers[w := Counted(message)])
    case Counted(message) => s.(workers := s.workers[w := Acked(message)])
    case Acked(message) => s.(store := Delete(s.store, message), workers := s.workers[w := Polling])
  }

  ghost predicate Next(s: State, s': State) {
    exists step :: StepTo(s, s', step)
  }

  ghost predicate Init(s: State) {
    && s.store.entries == map[] && s.store.stream == {} && s.store.delivered == {} && s.store.processed == {}
    && s.store.counter == 0 && s.store.errors == 0 && s.workers == map[] && s.lost == 0 && s.left == 0
  }

  ghost predicate StepAt(run: seq<State>, k: int)
    requires 0 < k < |run|
  {
    Next(run[k - 1], run[k])
  }

  ghost predicate Run(run: seq<State>) {
    && run != [] && Init(run[0])
    && forall k :: 0 < k < |run| ==> StepAt(run, k)
  }

  // ----- The invariant

  predicate HasMessage(worker: Worker) {
    worker.Holding? || worker.Marked? || worker.Counted? || worker.Acked?
  }

  /** Workers between set-if-absent and increment. */
  ghost function Caught(s: State): set<int> {
    set w | w in s.workers && s.workers[w].Marked?
  }

  ghost predicate WorkerInv(s: State, w: int)
    requires w in s.workers
  {
    var worker := s.workers[w];
    HasMessage(worker) ==>
      && worker.message in s.store.entries && worker.message in s.store.stream && worker.message in s.store.delivered
      && (!worker.Holding? ==> s.store.entries[worker.message] in s.store.processed)
  }

  ghost predicate Inv(s: State) {
    && s.store.stream <= s.store.entries.Keys && s.store.delivered <= s.store.entries.Keys
    && (forall m :: m in s.store.entries && m !in s.store.stream ==> m in s.store.delivered && s.store.entries[m] in s.store.processed)
    && (forall w :: w in s.workers ==> WorkerInv(s, w))
    && (forall v, w :: v in s.workers && w in s.workers && v != w && HasMessage(s.workers[v]) && HasMessage(s.workers[w])
                       ==> s.workers[v].message != s.workers[w].message)
    && |s.store.processed| == s.store.counter + |Caught(s)| + s.lost
  }

  lemma CaughtMoves(s: State, s': State, w: int)
    requires w in s.workers
    requires forall v :: v != w ==> (v in s.workers <==> v in s'.workers)
    requires forall v :: v != w && v in s.workers ==> s'.workers[v] == s.workers[v]
    ensures |Caught(s')| == |Caught(s)| - (if s.workers[w].Marked? then 1 else 0)
                            + (if w in s'.workers && s'.workers[w].Marked? then 1 else 0)
  {
    var others := Caught(s) - {w};
    assert Caught(s) == if s.workers[w].Marked? then others + {w} else others;
    forall v | v != w ensures v in Caught(s') <==> v in others {
      if v in s'.workers {
        assert s'.workers[v] == s.workers[v];
      }
    }
    assert Caught(s') == if w in s'.workers && s'.workers[w].Marked? then others + {w} else others;
  }

  lemma WorkKeeps(s: State, s': State, w: int)
    requires Inv(s) && StepTo(s, s', Work(w))
    ensures Inv(s')
  {
    assert WorkerInv(s, w);
    CaughtMoves(s, s', w);
    forall v | v in s'.workers ensures WorkerInv(s', v) {
      assert WorkerInv(s, v);
    }
  }

  lemma OtherKeeps(s: State, s': State, step: Step)
    requires Inv(s) && StepTo(s, s', step) && !step.Work?
    ensures Inv(s')
  {
    forall v | v in s'.workers ensures WorkerInv(s', v) {
      assert v in s.workers ==> WorkerInv(s, v);
    }
    match step
    case Add(_, _) => assert Caught(s') == Caught(s);
    case SetFlags(_, _) => assert Caught(s') == Caught(s);
    case Start(w) => assert Caught(s') == Caught(s);
    case Kill(w) => CaughtMoves(s, s', w);
    case Poll(w) => CaughtMoves(s, s', w);
    case Read(w, message) =>
      CaughtMoves(s, s', w);
      forall v | v in s.workers && HasMessage(s.workers[v]) ensures s.workers[v].message != message {
        assert WorkerInv(s, v);
      }
  }

  lemma NextKeeps(s: State, s': State)
    requires Inv(s) && Next(s, s')
    ensures Inv(s')
  {
    hide Inv;
    var step :| StepTo(s, s', step);
    if step.Work? {
      WorkKeeps(s, s', step.worker);
    } else {
      OtherKeeps(s, s', step);
    }
  }

  lemma {:induction false} InvariantHolds(run: seq<State>, k: nat)
    requires Run(run) && k < |run|
    ensures Inv(run[k])
  {
    if k > 0 {
      InvariantHolds(run, k - 1);
      hide Inv;
      assert StepAt(run, k);
      NextKeeps(run[k - 1], run[k]);
    } else {
      assert Caught(run[0]) == {};
    }
  }

  // ----- Conservation

  /** Job ids are unique. */
  ghost predicate Unique(entries: map<Id, Id>) {
    forall m, n :: m in entries && n in entries && entries[m] == entries[n] ==> m == n
  }

  lemma {:induction false} ImageSize(messages: set<Id>, entries: map<Id, Id>, jobs: set<Id>)
    requires messages <= entries.Keys && Unique(entries)
    requires forall m :: m in messages ==> entries[m] in jobs
    ensures |messages| <= |jobs|
    decreases |messages|
  {
    if messages != {} {
      var m := Element(messages);
      ImageSize(messages - {m}, entries, jobs - {entries[m]});
    }
  }

  lemma Element<T>(items: set<T>) returns (item: T)
    requires items != {}
    ensures item in items
  {
    item :| item in items;
  }

  /** No entry is lost, whenever workers are killed: whatever was deleted had its job processed; with
      unique job ids the entries ever added are at most those still in the stream plus the jobs
      processed. The counter never runs ahead of the processed set and lags behind it by exactly the
      workers that are, or were killed, between set-if-absent and increment. */
  lemma StreamConserved(run: seq<State>, k: nat)
    requires Run(run) && k < |run|
    ensures var s := run[k];
            && (forall m :: m in s.store.entries && m !in s.store.stream ==> s.store.entries[m] in s.store.processed)
            && (Unique(s.store.entries) ==> |s.store.entries| <= |s.store.stream| + |s.store.processed|)
            && s.store.counter <= |s.store.processed|
            && |s.store.processed| - s.store.counter == |Caught(s)| + s.lost
  {
    InvariantHolds(run, k);
    var store := run[k].store;
    var deleted := store.entries.Keys - store.stream;
    assert store.entries.Keys == deleted + store.stream;
    if Unique(store.entries) {
      ImageSize(deleted, store.entries, store.processed);
    }
  }

  /** Two workers never hold the same entry. */
  lemma DeliveredToOne(run: seq<State>, k: nat, v: int, w: int)
    requires Run(run) && k < |run| && v in run[k].workers && w in run[k].workers
    requires HasMessage(run[k].workers[v]) && HasMessage(run[k].workers[w]) && run[k].workers[v].message == run[k].workers[w].message
    ensures v == w
  {
    InvariantHolds(run, k);
  }

  /** Delivered, not deleted, and in nobody's hands: left by a killed worker or by the fail fault. */
  ghost predicate Abandoned(s: State, message: Id) {
    && message in s.store.delivered && message in s.store.stream
    && forall w :: w in s.workers && HasMessage(s.workers[w]) ==> s.workers[w].message != message
  }

  ghost predicate Holds(s: State, w: int, message: Id) {
    w in s.workers && HasMessage(s.workers[w]) && s.workers[w].message == message
  }

  /** An entry becomes abandoned when the worker that holds it is killed, at whatever command, or drops
      it under the fail fault; and in no other way. */
  lemma AbandonedWhen(s: State, s': State, step: Step, message: Id)
    requires Inv(s) && StepTo(s, s', step) && message in s.store.stream && !Abandoned(s, message)
    ensures Abandoned(s', message)
            <==> || (step.Kill? && Holds(s, step.worker, message))
                 || (step.Work? && Holds(s, step.worker, message) && s.workers[step.worker].Holding? && s.workers[step.worker].fault == Fail)
  {
    if message in s.store.delivered {
      var w :| w in s.workers && HasMessage(s.workers[w]) && s.workers[w].message == message;
      assert WorkerInv(s, w);
      assert w in s'.workers && HasMessage(s'.workers[w]) ==> s'.workers[w].message == message || !s.workers[w].Holding?;
      forall v | v in s.workers && v != w && HasMessage(s.workers[v]) ensures s.workers[v].message != message {
      }
    } else {
      match step
      case Read(v, m) => assert m == message ==> HasMessage(s'.workers[v]) && s'.workers[v].message == m;
      case Add(_, _) =>
      case SetFlags(_, _) =>
      case Start(_) =>
      case Kill(v) => assert HasMessage(s.workers[v]) ==> WorkerInv(s, v);
      case Poll(_) =>
      case Work(v) => assert HasMessage(s.workers[v]) ==> WorkerInv(s, v);
    }
  }

  /** An abandoned entry stays in the stream for good: it is never delivered again. */
  lemma AbandonedForever(s: State, s': State, message: Id)
    requires Inv(s) && Next(s, s') && Abandoned(s, message)
    ensures Abandoned(s', message)
  {
    var step :| StepTo(s, s', step);
    match step
    case Add(_, _) =>
    case SetFlags(_, _) =>
    case Start(_) =>
    case Kill(_) =>
    case Poll(_) =>
    case Read(_, _) =>
    case Work(_) =>
  }

  /** The entries that are abandoned. */
  ghost function AllAbandoned(s: State): set<Id> {
    set m | m in s.store.stream && Abandoned(s, m)
  }

  lemma OneMoreAbandoned(s: State, s': State, step: Step)
    requires Inv(s) && StepTo(s, s', step)
    ensures |AllAbandoned(s')| - |AllAbandoned(s)| == s'.store.errors + s'.left - s.store.errors - s.left
  {
    assert Next(s, s');
    var drops := || (step.Kill? && HasMessage(s.workers[step.worker]))
                 || (step.Work? && s.workers[step.worker].Holding? && s.workers[step.worker].fault == Fail);
    if step.Kill? || step.Work? {
      assert WorkerInv(s, step.worker);
    }
    forall m ensures m in AllAbandoned(s') <==> m in AllAbandoned(s) || (drops && m == s.workers[step.worker].message) {
      if m in s.store.stream {
        if Abandoned(s, m) {
          AbandonedForever(s, s', m);
        } else {
          AbandonedWhen(s, s', step, m);
        }
      }
    }
    if drops {
      var message := s.workers[step.worker].message;
      assert !Abandoned(s, message);
      assert AllAbandoned(s') == AllAbandoned(s) + {message};
    } else {
      assert AllAbandoned(s') == AllAbandoned(s);
    }
  }

  /** Every abandoned entry is accounted for once: by the error counter when it was dropped under the
      fail fault, and otherwise by the one worker that was killed while it held it. */
  lemma {:induction false} AbandonedAreCounted(run: seq<State>, k: nat)
    requires Run(run) && k < |run|
    ensures |AllAbandoned(run[k])| == run[k].store.errors + run[k].left
  {
    if k > 0 {
      AbandonedAreCounted(run, k - 1);
      InvariantHolds(run, k - 1);
      assert StepAt(run, k);
      var step :| StepTo(run[k - 1], run[k], step);
      hide Inv, Abandoned, StepTo;
      OneMoreAbandoned(run[k - 1], run[k], step);
    } else {
      assert AllAbandoned(run[0]) == {};
    }
  }

  /** The state is reached in n steps. */
  ghost predicate Leads(s: State, s': State, n: nat)
    decreases n
  {
    if n == 0 then s' == s else exists m :: Next(s, m) && Leads(m, s', n - 1)
  }

  /** Some continuation hands the entry to a worker. */
  ghost predicate Deliverable(s: State, message: Id) {
    exists n: nat, m, m', w :: Leads(s, m, n) && StepTo(m, m', Read(w, message))
  }

  lemma {:induction false} DeliveredStays(s: State, s': State, n: nat, message: Id)
    requires Leads(s, s', n) && message in s.store.delivered
    ensures message in s'.store.delivered
    decreases n
  {
    if n > 0 {
      var m :| Next(s, m) && Leads(m, s', n - 1);
      var step :| StepTo(s, m, step);
      assert message in m.store.delivered;
      hide Next;
      DeliveredStays(m, s', n - 1, message);
    }
  }

  lemma LeadsOn(s: State, m: State, s': State, n: nat)
    requires Next(s, m) && Leads(m, s', n)
    ensures Leads(s, s', n + 1)
  {
  }

  lemma {:induction false} UnusedWorker(names: set<int>) returns (name: int)
    ensures forall n :: n in names ==> n < name
    decreases |names|
  {
    if names == {} {
      name := 0;
      assert forall n :: n !in names;
    } else {
      var n := Element(names);
      var above := UnusedWorker(names - {n});
      name := if above > n then above else n + 1;
      forall m | m in names ensures m < name {
        assert m == n || m in names - {n};
      }
    }
  }

  /** A new worker picks up an entry that was never delivered. */
  lemma NewWorkerReads(s: State, message: Id)
    requires message in s.store.stream && message !in s.store.delivered
    ensures Deliverable(s, message)
  {
    var w := UnusedWorker(s.workers.Keys);
    var s1 := s.(store := s.store.(fault := Healthy, paused := false));
    var s2 := s1.(workers := s1.workers[w := Polling]);
    var s3 := s2.(workers := s2.workers[w := Reading(Healthy)]);
    var s4 := s3.(store := Deliver(s3.store, message), workers := s3.workers[w := Holding(message, Healthy)]);
    assert StepTo(s, s1, SetFlags(Healthy, false));
    assert StepTo(s1, s2, Start(w));
    assert StepTo(s2, s3, Poll(w));
    assert StepTo(s3, s4, Read(w, message));
    assert Next(s, s1) && Next(s1, s2) && Next(s2, s3);
    hide Next, StepTo;
    assert Leads(s3, s3, 0);
    LeadsOn(s2, s3, s3, 0);
    LeadsOn(s1, s2, s3, 1);
    LeadsOn(s, s1, s3, 2);
  }

  /** In every reachable state an entry still in the stream can be delivered later if and only if it
      never was; otherwise a worker holds it or it is abandoned. */
  lemma DeliverableIff(run: seq<State>, k: nat, message: Id)
    requires Run(run) && k < |run| && message in run[k].store.stream
    ensures Deliverable(run[k], message) <==> message !in run[k].store.delivered
    ensures message in run[k].store.delivered <==> Abandoned(run[k], message) || exists w :: Holds(run[k], w, message)
  {
    InvariantHolds(run, k);
    var s := run[k];
    if message !in s.store.delivered {
      NewWorkerReads(s, message);
    } else if Deliverable(s, message) {
      var n: nat, m, m', w :| Leads(s, m, n) && StepTo(m, m', Read(w, message));
      DeliveredStays(s, m, n, message);
      assert false;
    }
    forall w | Holds(s, w, message) ensures message in s.store.delivered {
      assert WorkerInv(s, w);
    }
    if message in s.store.delivered && !Abandoned(s, message) {
      var w :| w in s.workers && HasMessage(s.workers[w]) && s.workers[w].message == message;
      assert Holds(s, w, message);
    }
  }

  // ----- One round of the worker loop

  lemma {:induction false} LeadsTo(s: State, m: State, s': State, n: nat, step: Step)
    requires Leads(s, m, n) && StepTo(m, s', step)
    ensures Leads(s, s', n + 1)
    decreases n
  {
    assert Next(m, s');
    hide Next, StepTo;
    if n == 0 {
      assert Leads(s', s', 0);
    } else {
      var t :| Next(s, t) && Leads(t, m, n - 1);
      LeadsTo(t, m, s', n - 1, step);
    }
  }

  /** The worker goes on by its next command. */
  lemma WorksOn(s: State, m: State, n: nat, w: int) returns (next: State, steps: nat)
    requires Leads(s, m, n) && w in m.workers
    ensures next == WorkStep(m, w, m.workers[w]) && steps == n + 1 && Leads(s, next, steps)
  {
    next, steps := WorkStep(m, w, m.workers[w]), n + 1;
    LeadsTo(s, m, next, n, Work(w));
  }

  /** What Redis.Round does to the store is what the commands of a polling worker do to it when nothing
      comes between them. */
  lemma RoundIsARun(s: State, w: int, message: Id) returns (s': State, n: nat)
    requires w in s.workers && s.workers[w].Polling? && !s.store.paused && s.store.fault != Stall
    requires message in s.store.stream && message in s.store.entries && message !in s.store.delivered
    ensures Leads(s, s', n) && s'.workers == s.workers && s'.lost == s.lost && s'.left == s.left
    ensures var was, now := s.store, s'.store;
            if was.fault == Fail then now == Deliver(was, message).(errors := was.errors + 1)
            else
              var job := was.entries[message];
              now == was.(stream := was.stream - {message}, delivered := was.delivered + {message},
                          processed := was.processed + {job}, counter := was.counter + if job in was.processed then 0 else 1)
  {
    hide Next, Leads;
    Here(s);
    var read := s.(workers := s.workers[w := Reading(s.store.fault)]);
    var held := read.(store := Deliver(read.store, message), workers := read.workers[w := Holding(message, s.store.fault)]);
    LeadsTo(s, s, read, 0, Poll(w));
    LeadsTo(s, read, held, 1, Read(w, message));
    hide StepTo;
    s', n := WorksOn(s, held, 2, w);
    if s.store.fault != Fail {
      if s'.workers[w].Marked? {
        s', n := WorksOn(s, s', n, w);
      }
      s', n := WorksOn(s, s', n, w);
      s', n := WorksOn(s, s', n, w);
    }
    assert s'.workers == s.workers;
  }

  /** While workers are paused or stalled, none that is polling takes up anything. */
  lemma IdleWhilePaused(s: State, s': State, step: Step, w: int)
    requires StepTo(s, s', step) && w in s.workers && s.workers[w].Polling? && (s.store.paused || s.store.fault == Stall)
    ensures w in s'.workers ==> s'.workers[w].Polling?
    ensures step == Poll(w) || step == Work(w) ==> s' == s
  {
    match step
    case Add(_, _) =>
    case SetFlags(_, _) =>
    case Start(_) =>
    case Kill(_) =>
    case Poll(_) =>
    case Read(_, _) =>
    case Work(_) =>
  }

  lemma Here(s: State)
    ensures Leads(s, s, 0)
  {
  }


  /** The store as one worker updates it, command by command. */
  class Redis {
    var store: Store

    constructor (store: Store)
      ensures this.store == store
    {
      this.store := store;
    }

    /** RunWorker's loop body when it is left alone: an undelivered entry is processed, counted once per
        job and deleted; under the fail fault it is only delivered; otherwise nothing happens. */
    method Round(undelivered: seq<Id>)
      requires forall m :: m in undelivered <==> m in store.stream && m !in store.delivered
      requires store.stream <= store.entries.Keys
      modifies this
      ensures var was := old(store);
              if was.paused || was.fault == Stall || undelivered == [] then store == was
              else if was.fault == Fail then store == Deliver(was, undelivered[0]).(errors := was.errors + 1)
              else
                && undelivered[0] in undelivered && undelivered[0] in was.entries
                && var job := was.entries[undelivered[0]];
                && store.stream == was.stream - {undelivered[0]} && store.delivered == was.delivered + {undelivered[0]}
                && store.processed == was.processed + {job}
                && store.counter == was.counter + (if job in was.processed then 0 else 1)
                && store.entries == was.entries && store.errors == was.errors
    {
      var paused, fault := store.paused, store.fault;
      if paused || fault == Stall {
        return;
      }
      if undelivered == [] {
        return;
      }
      var message := undelivered[0];
      assert message in undelivered;
      store := Deliver(store, message);
      var job := store.entries[message];
      if fault == Fail {
        store := store.(errors := store.errors + 1);
        return;
      }
      var first := job !in store.processed;
      store := SetIfAbsent(store, job);
      if first {
        store := Increment(store);
      }
      store := Delete(store, message);
    }
  }
}
