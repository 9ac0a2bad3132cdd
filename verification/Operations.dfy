/** The supervisor's operations endpoint, the control adapter in front of it, and the protocol's calls
    sent through both. */
module Operations {
  import opened Domain
  import opened Protocol
  import opened ProtocolInvariant
  import opened ProtocolRuns
  import opened ProtocolTheorems
  import Tables

  datatype Operation = RestartWorker | PauseConsumer | ResumeConsumer | Unsupported

  datatype Request = Request(id: string, operation: Operation, target: string)

  const TARGET := "queue-worker"

  /** The result of an operation, as it is stored. */
  datatype Stored = Stored(id: string, operation: Operation, succeeded: bool)

  datatype Response = Response(code: int, outcome: Option<Stored>)

  /** What operations change: the child process, the flags, the stored results; applied lists the
      operations that were carried out, successfully or not. */
  datatype Supervised = Supervised(
    child: bool,
    generation: nat,
    healthy: bool, // no fault is set
    paused: bool,
    results: map<string, Stored>,
    applied: seq<string>)

  /** Carry out an operation; works tells whether the process could be started or the flag be written. */
  function Apply(s: Supervised, operation: Operation, works: bool): Supervised {
    match operation
    case RestartWorker => s.(child := works, healthy := true, generation := s.generation + if works then 1 else 0)
    case PauseConsumer => if works then s.(paused := true) else s
    case ResumeConsumer => if works then s.(paused := false) else s
    case Unsupported => s
  }

  function Served(s: Supervised, request: Request, works: bool): Supervised {
    if request.id == "" || request.target != TARGET || request.id in s.results || request.operation == Unsupported then s
    else
      var outcome := Stored(request.id, request.operation, works);
      Apply(s, request.operation, works).(results := s.results[request.id := outcome], applied := s.applied + [request.id])
  }

  function ReplyTo(s: Supervised, request: Request, works: bool): Response {
    if request.id == "" || request.target != TARGET then Response(400, None)
    else if request.id in s.results then Response(200, Some(s.results[request.id]))
    else if request.operation == Unsupported then Response(400, None)
    else Response(if works then 200 else 500, Some(Stored(request.id, request.operation, works)))
  }

  /** What the supervisor refuses: no id, another target, or an operation it does not know and has no
      result for. */
  predicate Refused(s: Supervised, request: Request) {
    request.id == "" || request.target != "queue-worker" || (request.operation == Unsupported && request.id !in s.results)
  }

  class Supervisor {
    var child: Option<int>
    var generation: nat
    var healthy: bool
    var paused: bool
    var results: map<string, Stored>
    ghost var applied: seq<string>

    constructor ()
      ensures View() == Supervised(false, 0, true, false, map[], [])
    {
      child, generation, healthy, paused, results, applied := None, 0, true, false, map[], [];
    }

    ghost function View(): Supervised
      reads this
    {
      Supervised(child.Some?, generation, healthy, paused, results, applied)
    }

    /** Start the worker process unless it runs already. */
    method StartWorker(process: int, works: bool) returns (ok: bool)
      modifies this`child, this`generation
      ensures old(child).Some? ==> ok && child == old(child) && generation == old(generation)
      ensures old(child).None? ==> ok == works && child == (if works then Some(process) else None)
                                   && generation == old(generation) + (if works then 1 else 0)
    {
      if child.Some? {
        return true;
      }
      if !works {
        return false;
      }
      child := Some(process);
      generation := generation + 1;
      ok := true;
    }

    /** Kill the worker, clear the fault, start another worker. */
    method Restart(process: int, works: bool) returns (ok: bool)
      modifies this`child, this`generation, this`healthy
      ensures ok == works && child == (if works then Some(process) else None)
      ensures healthy && generation == old(generation) + if works then 1 else 0
    {
      child := None;
      healthy := true;
      ok := StartWorker(process, works);
    }

    /** The /operations handler in front of it: the token, the method and the body are checked first. */
    method Handle(authorized: bool, post: bool, body: Option<Request>, process: int, works: bool) returns (response: Response)
      modifies this
      ensures authorized && post && body.Some? ==>
                View() == Served(old(View()), body.value, works) && response == ReplyTo(old(View()), body.value, works)
      ensures !(authorized && post && body.Some?) ==>
                View() == old(View()) && response == Response(if !authorized then 401 else if !post then 405 else 400, None)
    {
      if !authorized {
        return Response(401, None);
      }
      if !post {
        return Response(405, None);
      }
      if body.None? {
        return Response(400, None);
      }
      response := Post(body.value, process, works);
    }

    /** POST /operations. A repeated id is answered with the stored result, and nothing is done. */
    method Post(request: Request, process: int, works: bool) returns (response: Response)
      modifies this
      ensures View() == Served(old(View()), request, works) && response == ReplyTo(old(View()), request, works)
      ensures Refused(old(View()), request) ==> View() == old(View()) && child == old(child) && response == Response(400, None)
      ensures !Refused(old(View()), request) && request.id in old(results) ==>
                View() == old(View()) && child == old(child) && response == Response(200, Some(old(results)[request.id]))
      ensures !Refused(old(View()), request) && request.id !in old(results) ==>
                && response == Response(if works then 200 else 500, Some(Stored(request.id, request.operation, works)))
                && results == old(results)[request.id := Stored(request.id, request.operation, works)]
                && applied == old(applied) + [request.id]
                && (request.operation.RestartWorker? ==>
                      && child == (if works then Some(process) else None)
                      && generation == old(generation) + (if works then 1 else 0) && healthy && paused == old(paused))
                && (!request.operation.RestartWorker? ==>
                      && child == old(child) && generation == old(generation) && healthy == old(healthy)
                      && paused == if !works then old(paused) else request.operation.PauseConsumer?)
    {
      if request.id == "" || request.target != TARGET {
        return Response(400, None);
      }
      if request.id in results {
        return Response(200, Some(results[request.id]));
      }
      var ok := works;
      match request.operation {
        case RestartWorker =>
          ok := Restart(process, works);
        case PauseConsumer =>
          if works {
            paused := true;
          }
        case ResumeConsumer =>
          if works {
            paused := false;
          }
        case Unsupported =>
          return Response(400, None);
      }
      var outcome := Stored(request.id, request.operation, ok);
      results := results[request.id := outcome];
      applied := applied + [request.id];
      response := Response(if ok then 200 else 500, Some(outcome));
    }
  }

  // ----- At most one effect per id

  function Count(ids: seq<string>, id: string): nat {
    if ids == [] then 0 else Count(ids[..|ids| - 1], id) + if ids[|ids| - 1] == id then 1 else 0
  }

  lemma CountSnoc(ids: seq<string>, last: string, id: string)
    ensures Count(ids + [last], id) == Count(ids, id) + if last == id then 1 else 0
  {
    assert (ids + [last])[..|ids|] == ids;
  }

  /** An operation was carried out exactly when its result is stored, and then once. */
  ghost predicate Once(s: Supervised) {
    forall id :: Count(s.applied, id) == if id in s.results then 1 else 0
  }

  lemma ServedOnce(s: Supervised, request: Request, works: bool)
    requires Once(s)
    ensures Once(Served(s, request, works))
  {
    var s' := Served(s, request, works);
    forall id ensures Count(s'.applied, id) == if id in s'.results then 1 else 0 {
      CountSnoc(s.applied, request.id, id);
    }
  }

  /** A request whose id has a result changes nothing and is answered 200 with that result, whether the
      operation had succeeded or not. */
  lemma RepeatedRequest(s: Supervised, request: Request, again: Request, works: bool, worksAgain: bool)
    requires request.id != "" && request.target == TARGET && request.operation != Unsupported
    requires again.id == request.id && again.target == TARGET
    ensures var s' := Served(s, request, works);
            && Served(s', again, worksAgain) == s'
            && ReplyTo(s', again, worksAgain) == Response(200, ReplyTo(s, request, works).outcome)
  {
  }

  // ----- The control adapter and its retries

  /** What becomes of one HTTP exchange. */
  datatype Exchange = Delivered | RequestLost | ResponseLost | TimedOut(served: bool)

  function Seen(code: int): AdapterOutcome {
    if code >= 500 then AdapterRetryable else if code >= 400 then AdapterFatal else AdapterOk
  }

  function Exchanged(s: Supervised, request: Request, exchange: Exchange, works: bool): Supervised {
    if exchange == RequestLost || exchange == TimedOut(false) then s else Served(s, request, works)
  }

  function Result(s: Supervised, request: Request, exchange: Exchange, works: bool): AdapterOutcome {
    match exchange
    case Delivered => Seen(ReplyTo(s, request, works).code)
    case RequestLost => AdapterRetryable
    case ResponseLost => AdapterRetryable
    case TimedOut(_) => AdapterTimeout
  }

  /** executeWithRetry from the k-th exchange on: the supervisor's state and the last answer. */
  function Retried(s: Supervised, request: Request, exchange: nat -> Exchange, works: nat -> bool, k: nat, retries: nat): (Supervised, AdapterOutcome)
    requires k <= retries
    decreases retries - k
  {
    var s', answer := Exchanged(s, request, exchange(k), works(k)), Result(s, request, exchange(k), works(k));
    if answer == AdapterRetryable && k < retries then Retried(s', request, exchange, works, k + 1, retries) else (s', answer)
  }

  predicate Valid(request: Request) {
    request.id != "" && request.target == TARGET && request.operation != Unsupported
  }

  /** From the k-th exchange on, the f-th is the first that reaches the supervisor. */
  ghost predicate Reached(exchange: nat -> Exchange, k: nat, f: nat) {
    k <= f && exchange(f) != RequestLost && exchange(f) != TimedOut(false) && forall j: nat :: k <= j < f ==> exchange(j) == RequestLost
  }

  /** From the k-th exchange on, the g-th is the first whose response arrives, and none times out before. */
  ghost predicate Heard(exchange: nat -> Exchange, k: nat, g: nat) {
    k <= g && exchange(g) == Delivered && forall j: nat :: k <= j < g ==> exchange(j) == RequestLost || exchange(j) == ResponseLost
  }

  /** The first exchange that reached the supervisor found the operation failing, its answer asked for a
      retry, and a later one brings the stored result back. */
  ghost predicate Misread(exchange: nat -> Exchange, works: nat -> bool, k: nat, retries: nat) {
    exists f: nat, g: nat :: MisreadAt(exchange, works, k, f, g) && g <= retries
  }

  ghost predicate MisreadAt(exchange: nat -> Exchange, works: nat -> bool, k: nat, f: nat, g: nat) {
    Reached(exchange, k, f) && !exchange(f).TimedOut? && !works(f) && Heard(exchange, f + 1, g)
  }

  lemma {:induction false} RetriedOnce(s: Supervised, request: Request, exchange: nat -> Exchange, works: nat -> bool, k: nat, retries: nat)
    requires k <= retries && Once(s)
    ensures var s' := Retried(s, request, exchange, works, k, retries).0;
            Once(s') && forall id :: id != request.id ==> (id in s'.results <==> id in s.results)
    decreases retries - k
  {
    hide Once, Apply;
    ServedOnce(s, request, works(k));
    var s', answer := Exchanged(s, request, exchange(k), works(k)), Result(s, request, exchange(k), works(k));
    ServedOthers(s, request, works(k));
    if answer == AdapterRetryable && k < retries {
      RetriedOnce(s', request, exchange, works, k + 1, retries);
    }
  }

  lemma ServedOthers(s: Supervised, request: Request, works: bool)
    ensures forall id :: id != request.id ==> (id in Served(s, request, works).results <==> id in s.results)
  {
  }

  /** With a stored result nothing more happens, and a success is reported once a response arrives. */
  lemma {:induction false} RetriedStored(s: Supervised, request: Request, exchange: nat -> Exchange, works: nat -> bool, k: nat, retries: nat)
    requires k <= retries && Valid(request) && request.id in s.results
    ensures Retried(s, request, exchange, works, k, retries).0 == s
    ensures Retried(s, request, exchange, works, k, retries).1 == AdapterOk <==> exists g: nat :: Heard(exchange, k, g) && g <= retries
    decreases retries - k
  {
    var next := k + 1;
    var answer := Result(s, request, exchange(k), works(k));
    if exchange(k) == Delivered {
      assert Heard(exchange, k, k);
    } else if answer == AdapterRetryable {
      HeardLater(exchange, k, next);
      hide Heard;
      if k < retries {
        RetriedStored(s, request, exchange, works, next, retries);
      }
    } else {
      assert forall g: nat :: !Heard(exchange, k, g);
    }
  }

  /** Without one the first exchange that reaches the supervisor decides. */
  lemma {:induction false} RetriedFresh(s: Supervised, request: Request, exchange: nat -> Exchange, works: nat -> bool, k: nat, retries: nat)
    requires k <= retries && Valid(request) && request.id !in s.results
    ensures var (s', answer) := Retried(s, request, exchange, works, k, retries);
            && (answer == AdapterOk ==> request.id in s'.results)
            && (request.id in s'.results <==> exists f: nat :: Reached(exchange, k, f) && f <= retries)
            && (forall f: nat :: Reached(exchange, k, f) && f <= retries ==> request.id in s'.results && s'.results[request.id].succeeded == works(f))
            && (answer == AdapterOk && !s'.results[request.id].succeeded <==> Misread(exchange, works, k, retries))
    decreases retries - k
  {
    hide Apply;
    var next := k + 1;
    var s', answer := Exchanged(s, request, exchange(k), works(k)), Result(s, request, exchange(k), works(k));
    if exchange(k) == RequestLost {
      ReachedLater(exchange, works, k, next);
      hide Reached, MisreadAt;
      if k < retries {
        RetriedFresh(s, request, exchange, works, next, retries);
      }
    } else if exchange(k) == TimedOut(false) {
      assert forall f: nat :: !Reached(exchange, k, f);
    } else {
      assert Reached(exchange, k, k) && forall f: nat :: Reached(exchange, k, f) ==> f == k;
      ServedStores(s, request, works(k));
      MisreadHere(exchange, works, k, next);
      hide Reached, MisreadAt, Heard;
      if answer == AdapterRetryable && k < retries {
        RetriedStored(s', request, exchange, works, next, retries);
      }
    }
  }

  lemma HeardLater(exchange: nat -> Exchange, k: nat, next: nat)
    requires next == k + 1
    requires exchange(k) == RequestLost || exchange(k) == ResponseLost
    ensures forall g: nat :: Heard(exchange, k, g) <==> Heard(exchange, next, g)
    ensures forall g: nat :: Heard(exchange, k, g) ==> g > k
  {
  }

  lemma ReachedLater(exchange: nat -> Exchange, works: nat -> bool, k: nat, next: nat)
    requires next == k + 1 && exchange(k) == RequestLost
    ensures forall f: nat :: Reached(exchange, k, f) <==> Reached(exchange, next, f)
    ensures forall f: nat :: Reached(exchange, k, f) ==> f > k
    ensures forall f: nat, g: nat :: MisreadAt(exchange, works, k, f, g) <==> MisreadAt(exchange, works, next, f, g)
    ensures forall f: nat, g: nat :: MisreadAt(exchange, works, k, f, g) ==> g > k
  {
  }

  lemma MisreadHere(exchange: nat -> Exchange, works: nat -> bool, k: nat, next: nat)
    requires next == k + 1 && Reached(exchange, k, k)
    ensures forall f: nat, g: nat :: MisreadAt(exchange, works, k, f, g)
                                     ==> f == k && g > k && !exchange(k).TimedOut? && !works(k) && Heard(exchange, next, g)
    ensures forall g: nat :: Heard(exchange, next, g) && !exchange(k).TimedOut? && !works(k) ==> MisreadAt(exchange, works, k, k, g)
  {
  }

  lemma ServedStores(s: Supervised, request: Request, works: bool)
    requires Valid(request) && request.id !in s.results
    ensures request.id in Served(s, request, works).results && Served(s, request, works).results[request.id].succeeded == works
  {
  }

  /** Refused requests change nothing, and they alone fail for good: as soon as a response arrives. */
  lemma {:induction false} RetriedRefused(s: Supervised, request: Request, exchange: nat -> Exchange, works: nat -> bool, k: nat, retries: nat)
    requires k <= retries
    ensures var (s', answer) := Retried(s, request, exchange, works, k, retries);
            && (Refused(s, request) ==> s' == s)
            && (answer == AdapterFatal <==> Refused(s, request) && exists g: nat :: Heard(exchange, k, g) && g <= retries)
    decreases retries - k
  {
    hide Apply;
    var next := k + 1;
    var s', answer := Exchanged(s, request, exchange(k), works(k)), Result(s, request, exchange(k), works(k));
    if exchange(k) == Delivered {
      assert Heard(exchange, k, k);
    }
    if answer == AdapterRetryable && k < retries {
      if exchange(k) != Delivered {
        HeardLater(exchange, k, next);
      }
      RetriedRefused(s', request, exchange, works, next, retries);
    } else if exchange(k) == RequestLost || exchange(k) == ResponseLost {
      HeardLater(exchange, k, next);
    }
  }

  /** Over a reliable network any retry turns the answer into a success. */
  lemma OverReliableNetwork(s: Supervised, request: Request, exchange: nat -> Exchange, works: nat -> bool, retries: nat)
    requires Valid(request) && request.id !in s.results && exchange(0) == exchange(1) == Delivered
    ensures Retried(s, request, exchange, works, 0, retries).1 == if works(0) || retries >= 1 then AdapterOk else AdapterRetryable
  {
    hide Apply;
    ServedStores(s, request, works(0));
    var s' := Served(s, request, works(0));
    assert retries >= 1 ==> Retried(s', request, exchange, works, 1, retries) == (s', AdapterOk);
  }

  /** ControlAdapter.Execute under executeWithRetry: however exchanges fail, the operation is carried
      out at most once; a success is reported only for a stored result, a new result is that of the first
      exchange that reached the supervisor, and the success hides a failure exactly when it is Misread. */
  method ExecuteWithRetry(supervisor: Supervisor, request: Request, retries: nat, exchange: nat -> Exchange, works: nat -> bool)
    returns (answer: AdapterOutcome)
    requires Once(supervisor.View())
    modifies supervisor
    ensures (supervisor.View(), answer) == Retried(old(supervisor.View()), request, exchange, works, 0, retries)
    ensures Once(supervisor.View())
    ensures forall id :: id != request.id ==> Count(supervisor.applied, id) == Count(old(supervisor.applied), id)
    ensures Count(supervisor.applied, request.id) <= 1
    ensures Valid(request) && request.id in old(supervisor.results) ==> supervisor.View() == old(supervisor.View())
    ensures Valid(request) && answer == AdapterOk ==> request.id in supervisor.results
    ensures answer == AdapterFatal <==> Refused(old(supervisor.View()), request) && exists g: nat :: Heard(exchange, 0, g) && g <= retries
    ensures Refused(old(supervisor.View()), request) ==> supervisor.View() == old(supervisor.View())
    ensures Valid(request) && request.id !in old(supervisor.results) ==>
              && (forall f: nat :: Reached(exchange, 0, f) && f <= retries
                                   ==> request.id in supervisor.results && supervisor.results[request.id].succeeded == works(f))
              && (answer == AdapterOk && !supervisor.results[request.id].succeeded <==> Misread(exchange, works, 0, retries))
    ensures Valid(request) && request.id !in old(supervisor.results) && (forall k: nat :: exchange(k) == Delivered) ==>
              answer == if works(0) || retries >= 1 then AdapterOk else AdapterRetryable
  {
    hide Count, Apply, Result, Exchanged, Reached, Heard, Misread;
    ghost var was := supervisor.View();
    RetriedOnce(was, request, exchange, works, 0, retries);
    RetriedRefused(was, request, exchange, works, 0, retries);
    if Valid(request) {
      if request.id in supervisor.results {
        RetriedStored(was, request, exchange, works, 0, retries);
      } else {
        RetriedFresh(was, request, exchange, works, 0, retries);
        if forall k: nat :: exchange(k) == Delivered {
          OverReliableNetwork(was, request, exchange, works, retries);
        }
      }
    }
    var attempt := 0;
    answer := Call(supervisor, request, exchange(0), 0, works(0));
    while answer == AdapterRetryable && attempt < retries
      invariant attempt <= retries
      invariant Retried(was, request, exchange, works, 0, retries)
                == if answer == AdapterRetryable && attempt < retries then Retried(supervisor.View(), request, exchange, works, attempt + 1, retries)
                   else (supervisor.View(), answer)
      decreases retries - attempt
    {
      attempt := attempt + 1;
      answer := Call(supervisor, request, exchange(attempt), attempt, works(attempt));
    }
    assert Count(supervisor.View().applied, request.id) <= 1;
    forall id | id != request.id ensures Count(supervisor.applied, id) == Count(old(supervisor.applied), id) {
      assert Count(supervisor.View().applied, id) == Count(was.applied, id);
    }
  }

  method Call(supervisor: Supervisor, request: Request, exchange: Exchange, process: int, works: bool) returns (answer: AdapterOutcome)
    modifies supervisor
    ensures supervisor.View() == Exchanged(old(supervisor.View()), request, exchange, works)
    ensures answer == Result(old(supervisor.View()), request, exchange, works)
  {
    if exchange == RequestLost {
      return AdapterRetryable;
    }
    if exchange == TimedOut(false) {
      return AdapterTimeout;
    }
    var response := supervisor.Post(request, process, works);
    match exchange
    case Delivered => return Seen(response.code);
    case ResponseLost => return AdapterRetryable;
    case TimedOut(_) => return AdapterTimeout;
    case RequestLost =>
  }

  // ----- The protocol's calls

  function KeyOf(call: Dispatch): Key {
    match call
    case ExecuteCall(action, _, _) => ExecuteKey(action.id)
    case RollbackCall(action) => RollbackKey(action)
  }

  /** How each call fares on its way and at the supervisor. */
  datatype Fate = Fate(operation: Operation, exchange: Exchange, works: bool)

  /** The workload after the calls of a dispatch log, in order. */
  function Replayed(log: seq<Dispatch>, fate: nat -> Fate): Supervised {
    if log == [] then Supervised(false, 0, true, false, map[], [])
    else
      var n := |log| - 1;
      Exchanged(Replayed(log[..n], fate), Request(KeyText(KeyOf(log[n])), fate(n).operation, TARGET), fate(n).exchange, fate(n).works)
  }

  lemma {:induction false} ReplayedOnce(log: seq<Dispatch>, fate: nat -> Fate, a: Id)
    ensures Once(Replayed(log, fate))
    ensures KeyText(ExecuteKey(a)) in Replayed(log, fate).results ==> ExecuteCalls(log, a) > 0
  {
    hide Apply, KeyText, Once;
    if log == [] {
      NothingOnce();
    } else {
      var n := |log| - 1;
      ReplayedOnce(log[..n], fate, a);
      ServedOnce(Replayed(log[..n], fate), Request(KeyText(KeyOf(log[n])), fate(n).operation, TARGET), fate(n).works);
      if KeyText(KeyOf(log[n])) == KeyText(ExecuteKey(a)) {
        KeyTextIsInjective(KeyOf(log[n]), ExecuteKey(a));
      }
    }
  }

  lemma NothingOnce()
    ensures Once(Supervised(false, 0, true, false, map[], []))
  {
  }

  lemma {:induction false} CalledAction(log: seq<Dispatch>, a: Id) returns (n: nat)
    requires ExecuteCalls(log, a) > 0
    ensures n < |log| && log[n].ExecuteCall? && log[n].action.id == a
  {
    var last := log[|log| - 1];
    if last.ExecuteCall? && last.action.id == a {
      n := |log| - 1;
    } else {
      n := CalledAction(log[..|log| - 1], a);
    }
  }

  /** Over every run, whatever retries, losses, crashes and recoveries: executing an action changes the
      workload at most once, and only after an operator approved that action. */
  lemma ApprovedAndAtMostOnce(cfg: Config, run: seq<State>, k: nat, fate: nat -> Fate, a: Id)
    requires Run(cfg, run) && k < |run|
    ensures var changes := Count(Replayed(run[k].world.log, fate).applied, KeyText(ExecuteKey(a)));
            && changes <= 1
            && (changes == 1 ==>
                  exists approval :: && approval in Tables.ApprovalsOf(run[k].world.db, a)
                                     && approval.approved && Nonblank(approval.approver) && approval.action == a)
  {
    hide Replayed, Run, KeyText;
    var log := run[k].world.log;
    ReplayedOnce(log, fate, a);
    if Count(Replayed(log, fate).applied, KeyText(ExecuteKey(a))) == 1 {
      var n := CalledAction(log, a);
      EveryDispatchApproved(cfg, run, k, n);
      ApprovalOfRun(cfg, run, k, a, log[n].certificate.approval);
    }
  }

  lemma ApprovalOfRun(cfg: Config, run: seq<State>, k: nat, a: Id, approval: Approval)
    requires Run(cfg, run) && k < |run| && a in run[k].world.db.actions
    requires Tables.ApprovalsOf(run[k].world.db, a) == [approval]
    ensures approval.action == a && approval in Tables.ApprovalsOf(run[k].world.db, a)
  {
    InvariantHolds(cfg, run, k);
    assert ApprovalsSoundFor(run[k].world.db, a);
  }
}
