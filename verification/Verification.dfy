/** The recovery observation: samples are compared with the baseline until enough consecutive ones
    pass, telemetry is lost, or the deadline is reached. */
module Verification {
  import opened Domain
  import Protocol

  datatype Mode = Healthy | WorkerStall | OtherMode(name: string)

  datatype Snapshot = Snapshot(mode: Mode, workerHealthy: bool, errorRate: real, latency: int, backlog: int)

  // ----- The baseline

  /** An evidence item, with what its metadata holds. */
  datatype Evidence = Evidence(
    timestamp: int,
    mode: Option<Mode>,
    errorRate: Option<real>,
    latency: Option<int>,
    backlog: Option<int>,
    workerHealthy: Option<bool>)

  datatype Baseline = Baseline(snapshot: Snapshot, updatedAt: Option<int>)

  /** The value in the last item that has one. */
  function Latest<T>(items: seq<Evidence>, field: Evidence -> Option<T>): Option<T> {
    if items == [] then None
    else
      var last := field(items[|items| - 1]);
      if last.Some? then last else Latest(items[..|items| - 1], field)
  }

  /** Latest is what its name says. */
  lemma {:induction false} LatestIsLast<T>(items: seq<Evidence>, field: Evidence -> Option<T>)
    ensures Latest(items, field).None? <==> forall k :: 0 <= k < |items| ==> field(items[k]).None?
    ensures Latest(items, field).Some? ==>
              exists k :: && 0 <= k < |items| && field(items[k]) == Latest(items, field)
                          && forall j :: k < j < |items| ==> field(items[j]).None?
  {
    if items != [] {
      var before := items[..|items| - 1];
      LatestIsLast(before, field);
      assert forall k :: 0 <= k < |before| ==> before[k] == items[k];
      if field(items[|items| - 1]).None? && Latest(before, field).Some? {
        var k :| && 0 <= k < |before| && field(before[k]) == Latest(before, field)
                 && forall j :: k < j < |before| ==> field(before[j]).None?;
        assert field(items[k]) == Latest(items, field);
      }
    }
  }

  function OrElse<T>(value: Option<T>, default: T): T {
    if value.Some? then value.value else default
  }

  const NO_MODE := OtherMode("")

  predicate HasMetric(item: Evidence) {
    item.errorRate.Some? || item.latency.Some? || item.backlog.Some?
  }

  /** The latest value of every signal; no baseline without any metric; without a health signal the
      mode decides. */
  function BaselineOf(evidence: seq<Evidence>): Option<Baseline> {
    if forall k :: 0 <= k < |evidence| ==> !HasMetric(evidence[k]) then None
    else
      var mode := OrElse(Latest(evidence, (e: Evidence) => e.mode), NO_MODE);
      Some(Baseline(
             Snapshot(mode,
                      OrElse(Latest(evidence, (e: Evidence) => e.workerHealthy), mode == Healthy),
                      OrElse(Latest(evidence, (e: Evidence) => e.errorRate), 0.0),
                      OrElse(Latest(evidence, (e: Evidence) => e.latency), 0),
                      OrElse(Latest(evidence, (e: Evidence) => e.backlog), 0)),
             Latest(evidence, (e: Evidence) => if e.mode.Some? then Some(e.timestamp) else None)))
  }

  /** The k-th item has a value, and no later one has. */
  predicate Last<T>(values: seq<Option<T>>, k: int) {
    0 <= k < |values| && values[k].Some? && forall j :: k < j < |values| ==> values[j].None?
  }

  lemma {:induction false} LatestIs<T>(items: seq<Evidence>, field: Evidence -> Option<T>, values: seq<Option<T>>)
    requires |values| == |items| && forall k :: 0 <= k < |items| ==> values[k] == field(items[k])
    ensures forall k :: Last(values, k) ==> Latest(items, field) == values[k]
    ensures (forall k :: 0 <= k < |values| ==> values[k].None?) <==> Latest(items, field).None?
  {
    if items != [] {
      var n := |items| - 1;
      var before := values[..n];
      LatestIs(items[..n], field, before);
      assert forall k :: 0 <= k < n ==> before[k] == values[k];
      forall k | Last(values, k) ensures Latest(items, field) == values[k] {
        if k < n {
          assert Last(before, k);
        }
      }
      if Latest(items, field).None? {
        assert forall k :: 0 <= k < n ==> before[k].None?;
      }
    }
  }

  /** The signal is the last value there is, or the default. */
  ghost predicate Signal<T>(values: seq<Option<T>>, signal: T, default: T) {
    && (forall k :: Last(values, k) ==> signal == values[k].value)
    && ((forall k :: 0 <= k < |values| ==> values[k].None?) ==> signal == default)
  }

  lemma SignalIs<T>(items: seq<Evidence>, field: Evidence -> Option<T>, values: seq<Option<T>>, default: T)
    requires |values| == |items| && forall k :: 0 <= k < |items| ==> values[k] == field(items[k])
    ensures Signal(values, OrElse(Latest(items, field), default), default)
  {
    LatestIs(items, field, values);
  }

  /** Every signal of the baseline is its last value or its default. */
  lemma BaselineSignals(evidence: seq<Evidence>)
    ensures BaselineOf(evidence).Some? ==>
              var before, n := BaselineOf(evidence).value.snapshot, |evidence|;
              && Signal(seq(n, k requires 0 <= k < n => evidence[k].mode), before.mode, OtherMode(""))
              && Signal(seq(n, k requires 0 <= k < n => evidence[k].workerHealthy), before.workerHealthy, before.mode == Healthy)
              && Signal(seq(n, k requires 0 <= k < n => evidence[k].errorRate), before.errorRate, 0.0)
              && Signal(seq(n, k requires 0 <= k < n => evidence[k].latency), before.latency, 0)
              && Signal(seq(n, k requires 0 <= k < n => evidence[k].backlog), before.backlog, 0)
  {
    hide Signal, Last, Latest;
    if BaselineOf(evidence).Some? {
      var before, n := BaselineOf(evidence).value.snapshot, |evidence|;
      SignalIs(evidence, (e: Evidence) => e.mode, seq(n, k requires 0 <= k < n => evidence[k].mode), OtherMode(""));
      SignalIs(evidence, (e: Evidence) => e.workerHealthy, seq(n, k requires 0 <= k < n => evidence[k].workerHealthy), before.mode == Healthy);
      SignalIs(evidence, (e: Evidence) => e.errorRate, seq(n, k requires 0 <= k < n => evidence[k].errorRate), 0.0);
      SignalIs(evidence, (e: Evidence) => e.latency, seq(n, k requires 0 <= k < n => evidence[k].latency), 0);
      SignalIs(evidence, (e: Evidence) => e.backlog, seq(n, k requires 0 <= k < n => evidence[k].backlog), 0);
    }
  }

  /** There is a baseline if there is a metric, and it is as old as the last item with a mode. */
  lemma BaselineIff(evidence: seq<Evidence>)
    ensures BaselineOf(evidence).None?
            <==> forall k :: 0 <= k < |evidence| ==> evidence[k].errorRate.None? && evidence[k].latency.None? && evidence[k].backlog.None?
    ensures BaselineOf(evidence).Some? ==>
              var updatedAt, n := BaselineOf(evidence).value.updatedAt, |evidence|;
              && (forall k :: 0 <= k < n && evidence[k].mode.Some? && (forall j :: k < j < n ==> evidence[j].mode.None?)
                              ==> updatedAt == Some(evidence[k].timestamp))
              && ((forall k :: 0 <= k < n ==> evidence[k].mode.None?) ==> updatedAt.None?)
  {
    hide Latest;
    var n := |evidence|;
    var times := seq(n, k requires 0 <= k < n => if evidence[k].mode.Some? then Some(evidence[k].timestamp) else None);
    LatestIs(evidence, (e: Evidence) => if e.mode.Some? then Some(e.timestamp) else None, times);
    forall k | 0 <= k < n && evidence[k].mode.Some? && (forall j :: k < j < n ==> evidence[j].mode.None?) ensures Last(times, k) {
    }
  }

  /** deriveBaselineSnapshot: one pass in which later items overwrite earlier ones. */
  method DeriveBaseline(evidence: seq<Evidence>) returns (baseline: Option<Baseline>)
    ensures baseline == BaselineOf(evidence)
  {
    var snapshot := Snapshot(NO_MODE, false, 0.0, 0, 0);
    var updatedAt: Option<int> := None;
    var foundMetric, foundHealth := false, false;
    var k := 0;
    while k < |evidence|
      invariant 0 <= k <= |evidence|
      invariant foundMetric <==> exists j :: 0 <= j < k && HasMetric(evidence[j])
      invariant foundHealth == Latest(evidence[..k], (e: Evidence) => e.workerHealthy).Some?
      invariant updatedAt == Latest(evidence[..k], (e: Evidence) => if e.mode.Some? then Some(e.timestamp) else None)
      invariant snapshot == Snapshot(
                              OrElse(Latest(evidence[..k], (e: Evidence) => e.mode), NO_MODE),
                              OrElse(Latest(evidence[..k], (e: Evidence) => e.workerHealthy), false),
                              OrElse(Latest(evidence[..k], (e: Evidence) => e.errorRate), 0.0),
                              OrElse(Latest(evidence[..k], (e: Evidence) => e.latency), 0),
                              OrElse(Latest(evidence[..k], (e: Evidence) => e.backlog), 0))
    {
      var item := evidence[k];
      assert evidence[..k + 1][..k] == evidence[..k] && evidence[..k + 1][k] == item;
      if item.mode.Some? {
        snapshot := snapshot.(mode := item.mode.value);
        updatedAt := Some(item.timestamp);
      }
      if item.errorRate.Some? {
        snapshot, foundMetric := snapshot.(errorRate := item.errorRate.value), true;
      }
      if item.latency.Some? {
        snapshot, foundMetric := snapshot.(latency := item.latency.value), true;
      }
      if item.backlog.Some? {
        snapshot, foundMetric := snapshot.(backlog := item.backlog.value), true;
      }
      if item.workerHealthy.Some? {
        snapshot, foundHealth := snapshot.(workerHealthy := item.workerHealthy.value), true;
      }
      k := k + 1;
    }
    assert evidence[..k] == evidence;
    if !foundMetric {
      return None;
    }
    if !foundHealth {
      snapshot := snapshot.(workerHealthy := snapshot.mode == Healthy);
    }
    baseline := Some(Baseline(snapshot, updatedAt));
  }

  // ----- Comparing two snapshots

  datatype Checks = Checks(
    alertCleared: bool,
    healthNormal: bool,
    errorImproved: bool,
    latencyImproved: bool,
    backlogImproved: bool,
    errorWorsened: bool,
    latencyWorsened: bool,
    backlogWorsened: bool)

  function BuildChecks(before: Snapshot, after: Snapshot): Checks {
    Checks(after.mode == Healthy, after.workerHealthy,
           after.errorRate < before.errorRate, after.latency < before.latency, after.backlog < before.backlog,
           after.errorRate > before.errorRate, after.latency > before.latency, after.backlog > before.backlog)
  }

  predicate RecoveryChecksPassed(checks: Checks) {
    checks.alertCleared && checks.healthNormal && checks.backlogImproved && !checks.errorWorsened
  }

  function CountTrue(a: bool, b: bool, c: bool): nat {
    (if a then 1 else 0) + (if b then 1 else 0) + (if c then 1 else 0)
  }

  /** The verdict on the last comparison. */
  function Judge(before: Snapshot, checks: Checks): Verdict {
    var improved := CountTrue(checks.errorImproved, checks.latencyImproved, checks.backlogImproved);
    var worsened := CountTrue(checks.errorWorsened, checks.latencyWorsened, checks.backlogWorsened);
    if (before.mode == WorkerStall && RecoveryChecksPassed(checks))
       || (checks.alertCleared && checks.healthNormal && improved >= 2 && worsened == 0) then Success
    else if !checks.alertCleared || !checks.healthNormal || worsened >= 2 then Failure
    else Inconclusive
  }

  predicate Passes(before: Snapshot, after: Snapshot) {
    RecoveryChecksPassed(BuildChecks(before, after))
  }

  /** The verdict, told from the two snapshots. A success needs a healthy service and either a recovered
      worker stall or two signals better and none worse; a failure means the service is still degraded
      or two signals got worse. */
  lemma JudgeIff(before: Snapshot, after: Snapshot)
    ensures var verdict := Judge(before, BuildChecks(before, after));
            var healthy := after.mode == Healthy && after.workerHealthy;
            var e, l, b := after.errorRate < before.errorRate, after.latency < before.latency, after.backlog < before.backlog;
            var e', l', b' := after.errorRate > before.errorRate, after.latency > before.latency, after.backlog > before.backlog;
            && (verdict == Success <==> healthy && (|| (before.mode == WorkerStall && b && !e')
                                                    || (!e' && !l' && !b' && ((e && l) || (e && b) || (l && b)))))
            && (verdict == Failure <==> !healthy || (e' && l') || (e' && b') || (l' && b'))
  {
    assert !(after.errorRate < before.errorRate && after.errorRate > before.errorRate);
  }

  /** A recovered service: healthy, with a smaller backlog and an error rate that is not higher. */
  predicate Recovers(before: Snapshot, after: Snapshot) {
    && after.mode == Healthy && after.workerHealthy
    && after.backlog < before.backlog && after.errorRate <= before.errorRate
  }

  /** recoveryChecksPassed on the checks of two snapshots asks for just that. */
  lemma PassesIff(before: Snapshot, after: Snapshot)
    ensures Passes(before, after) <==> Recovers(before, after)
    ensures Passes(before, after) <==> && after.mode == Healthy && after.workerHealthy
                                       && after.backlog < before.backlog && after.errorRate <= before.errorRate
  {
  }

  /** A recovered service is never judged a failure, and after a worker stall it is a success. */
  lemma PassingIsNotFailure(before: Snapshot, after: Snapshot)
    requires Recovers(before, after)
    ensures Judge(before, BuildChecks(before, after)) != Failure
    ensures before.mode == WorkerStall || (after.errorRate < before.errorRate && after.latency <= before.latency)
            ==> Judge(before, BuildChecks(before, after)) == Success
  {
    assert after.backlog < before.backlog && !(after.backlog > before.backlog);
  }

  // ----- The observation window

  datatype Sample = Telemetry(snapshot: Snapshot) | Unavailable | Cancelled

  /** Samples in the order they are taken, and the time at which the k-th further one is asked for. */
  datatype Environment = Environment(sample: nat -> Sample, clock: nat -> int)

  datatype Window = Window(interval: int, timeout: int, required: int)

  /** Every further sample is preceded by a wait of one interval. */
  ghost predicate Paced(env: Environment, window: Window, start: int) {
    window.interval > 0 && env.clock(0) >= start && forall k: nat :: Waits(env, window, k)
  }

  ghost predicate Waits(env: Environment, window: Window, k: nat) {
    env.clock(k + 1) >= env.clock(k) + window.interval
  }

  ghost predicate RunAt(before: Snapshot, seen: seq<Snapshot>, from: int, n: int)
    requires 0 <= from && from + n <= |seen|
  {
    forall k :: from <= k < from + n ==> Recovers(before, seen[k])
  }

  /** Among the samples are n consecutive ones that pass. */
  ghost predicate Stable(before: Snapshot, seen: seq<Snapshot>, n: int)
    requires n >= 0
  {
    exists from :: 0 <= from <= |seen| - n && RunAt(before, seen, from, n)
  }

  /** How an observation ends. */
  datatype Observed = Recovered | TimedOut | Lost

  lemma PacedClock(env: Environment, window: Window, start: int, k: nat)
    requires Paced(env, window, start)
    ensures env.clock(k) >= start + k * window.interval
  {
    if k > 0 {
      PacedClock(env, window, start, k - 1);
      assert Waits(env, window, k - 1);
      assert k * window.interval == (k - 1) * window.interval + window.interval;
    }
  }

  /** The counter of evaluate: the length of the longest passing end, cut off at n; before the last
      sample no run of n was complete. */
  ghost predicate Counted(before: Snapshot, seen: seq<Snapshot>, n: int, consecutive: int)
    requires n > 1 && |seen| > 0
  {
    && 0 <= consecutive <= |seen| && consecutive <= n
    && RunAt(before, seen, |seen| - consecutive, consecutive)
    && (consecutive < |seen| && consecutive < n ==> !Recovers(before, seen[|seen| - 1 - consecutive]))
    && !Stable(before, seen[..|seen| - 1], n)
    && (Stable(before, seen, n) <==> consecutive == n)
  }

  lemma CountedFirst(before: Snapshot, first: Snapshot, n: int)
    requires n > 1
    ensures Counted(before, [first], n, if Recovers(before, first) then 1 else 0)
  {
  }

  lemma CountedNext(before: Snapshot, seen: seq<Snapshot>, next: Snapshot, n: int, consecutive: int)
    requires n > 1 && |seen| > 0 && Counted(before, seen, n, consecutive) && consecutive < n
    ensures Counted(before, seen + [next], n, if Recovers(before, next) then consecutive + 1 else 0)
  {
    var more := seen + [next];
    var count := if Recovers(before, next) then consecutive + 1 else 0;
    assert more[..|more| - 1] == seen;
    assert forall k :: 0 <= k < |seen| ==> more[k] == seen[k];
    if count == n {
      assert RunAt(before, more, |more| - n, n);
    }
    forall from | 0 <= from <= |more| - n ensures RunAt(before, more, from, n) ==> count == n {
      if from + n <= |seen| {
        assert !RunAt(before, seen, from, n);
        var k :| from <= k < from + n && !Recovers(before, seen[k]);
        assert !Recovers(before, more[k]);
      } else if count < n {
        // the run would contain the sample that ended the last one
        assert !Recovers(before, more[|more| - 1 - count]);
      }
    }
  }

  lemma CountedMeans(before: Snapshot, seen: seq<Snapshot>, n: int, consecutive: int)
    requires n > 1 && |seen| > 0 && Counted(before, seen, n, consecutive)
    ensures consecutive <= n && (Stable(before, seen, n) <==> consecutive == n)
    ensures consecutive == n ==> n <= |seen| && RunAt(before, seen, |seen| - n, n) && !Stable(before, seen[..|seen| - 1], n)
  {
  }

  /** The k-th further sample is asked for in time and finds a recovered service. */
  ghost predicate Steady(before: Snapshot, env: Environment, deadline: int, k: nat) {
    env.clock(k) < deadline && env.sample(k).Telemetry? && Recovers(before, env.sample(k).snapshot)
  }

  /** The first sample and the n - 1 after it all find a recovered service. */
  ghost predicate SteadyFromStart(before: Snapshot, first: Snapshot, env: Environment, deadline: int, n: int) {
    Recovers(before, first) && forall k: nat :: k < n - 1 ==> Steady(before, env, deadline, k)
  }

  /** An observation that stopped without a run of n had such a start only if it stopped later. */
  lemma SteadyIsStable(before: Snapshot, seen: seq<Snapshot>, env: Environment, deadline: int, n: int)
    requires n > 1 && |seen| >= 1 && SteadyFromStart(before, seen[0], env, deadline, n)
    requires forall k :: 1 <= k < |seen| ==> Fetched(env, deadline, k - 1, seen[k])
    requires env.clock(|seen| - 1) >= deadline || !env.sample(|seen| - 1).Telemetry? || |seen| >= n
    ensures Stable(before, seen, n)
  {
    assert |seen| < n ==> Steady(before, env, deadline, |seen| - 1);
    forall k | 0 <= k < n ensures Recovers(before, seen[k]) {
      if k > 0 {
        assert Fetched(env, deadline, k - 1, seen[k]) && Steady(before, env, deadline, k - 1);
      }
    }
    assert RunAt(before, seen, 0, n);
  }

  /** The loop of evaluate. It stops at the end of the first run of enough passing samples, at the
      deadline, or when telemetry is lost, and takes boundedly many samples. */
  method Observe(before: Snapshot, first: Snapshot, window: Window, env: Environment, ghost start: int, deadline: int)
    returns (seen: seq<Snapshot>, end: Observed)
    requires window.required > 1 && Paced(env, window, start) && deadline == start + window.timeout
    ensures |seen| >= 1 && seen[0] == first
    ensures forall k :: 1 <= k < |seen| ==> Fetched(env, deadline, k - 1, seen[k])
    ensures end == Recovered <==> Stable(before, seen, window.required)
    ensures SteadyFromStart(before, first, env, deadline, window.required) ==> end == Recovered
    ensures end == Recovered ==> && window.required <= |seen| && RunAt(before, seen, |seen| - window.required, window.required)
                                 && !Stable(before, seen[..|seen| - 1], window.required)
    ensures end == TimedOut ==> env.clock(|seen| - 1) >= deadline
    ensures end == Lost ==> env.clock(|seen| - 1) < deadline && !env.sample(|seen| - 1).Telemetry?
    ensures InTime(window, |seen|)
  {
    hide Stable, RunAt, Passes, Recovers, InTime, Counted, SteadyFromStart;
    seen := [first];
    var consecutive := if Passes(before, first) then 1 else 0;
    PassesIff(before, first);
    var k := 0;
    CountedFirst(before, first, window.required);
    while consecutive < window.required && env.clock(k) < deadline
      invariant |seen| == k + 1 && seen[0] == first
      invariant forall j :: 1 <= j <= k ==> Fetched(env, deadline, j - 1, seen[j])
      invariant Counted(before, seen, window.required, consecutive)
      decreases deadline - env.clock(k)
    {
      var sample := env.sample(k);
      if !sample.Telemetry? {
        assert k >= 1 ==> Fetched(env, deadline, k - 1, seen[k]);
        LastSampleInTime(env, window, start, |seen|);
        CountedMeans(before, seen, window.required, consecutive);
        if SteadyFromStart(before, first, env, deadline, window.required) {
          SteadyIsStable(before, seen, env, deadline, window.required);
        }
        return seen, Lost;
      }
      CountedNext(before, seen, sample.snapshot, window.required, consecutive);
      seen := seen + [sample.snapshot];
      assert Waits(env, window, k);
      PassesIff(before, sample.snapshot);
      if Passes(before, sample.snapshot) {
        consecutive := consecutive + 1;
      } else {
        consecutive := 0;
      }
      k := k + 1;
    }
    assert k >= 1 ==> Fetched(env, deadline, k - 1, seen[k]);
    LastSampleInTime(env, window, start, |seen|);
    CountedMeans(before, seen, window.required, consecutive);
    end := if consecutive < window.required then TimedOut else Recovered;
    if consecutive < window.required && SteadyFromStart(before, first, env, deadline, window.required) {
      SteadyIsStable(before, seen, env, deadline, window.required);
    }
  }

  /** The k-th further sample was asked for in time and arrived. */
  ghost predicate Fetched(env: Environment, deadline: int, k: nat, snapshot: Snapshot) {
    env.sample(k) == Telemetry(snapshot) && env.clock(k) < deadline
  }

  /** So many samples fit: every further one is asked for before the deadline. */
  predicate InTime(window: Window, samples: int) {
    samples > 1 ==> (samples - 2) * window.interval < window.timeout
  }

  lemma LastSampleInTime(env: Environment, window: Window, start: int, seen: nat)
    requires Paced(env, window, start) && (seen > 1 ==> env.clock(seen - 2) < start + window.timeout)
    ensures InTime(window, seen)
  {
    if seen > 1 {
      PacedClock(env, window, start, seen - 2);
    }
  }

  /** evaluate: with more than one required observation it never reports a failure, as the protocol
      takes for granted, reports a success only after a stable recovery, and always does so after a recovered worker stall. */
  method Evaluate(evidence: seq<Evidence>, maxAge: int, now: int, initial: Sample, window: Window, env: Environment, start: int)
    returns (verdict: Verdict, seen: seq<Snapshot>)
    requires window.required > 1 ==> Paced(env, window, start) && window.timeout >= 0
    ensures Protocol.MayReport(window.required, verdict)
    ensures initial.Telemetry? ==> |seen| >= 1 && seen[0] == initial.snapshot
    ensures |seen| <= if window.required > 1 then 1 + (window.timeout + window.interval - 1) / window.interval else 1
    ensures !Comparable(evidence, maxAge, initial, now) ==> verdict == Inconclusive && |seen| <= 1
    ensures Comparable(evidence, maxAge, initial, now) ==>
              var before := BaselineOf(evidence).value.snapshot;
              if window.required > 1 then
                var stable := Stable(before, seen, window.required);
                && verdict != Failure
                && (verdict == Success ==> stable && Recovers(before, seen[|seen| - 1]))
                && (stable ==> verdict == Judge(before, BuildChecks(before, seen[|seen| - 1])))
                && (stable && before.mode == WorkerStall ==> verdict == Success)
                && (before.mode == WorkerStall && SteadyFromStart(before, initial.snapshot, env, start + window.timeout, window.required)
                    ==> verdict == Success)
              else seen == [initial.snapshot] && verdict == Judge(before, BuildChecks(before, initial.snapshot))
  {
    if window.required > 1 {
      Ceiling(window.timeout, window.interval, 0);
    }
    var baseline := DeriveBaseline(evidence);
    seen := if initial.Telemetry? then [initial.snapshot] else [];
    if baseline.None? || !initial.Telemetry? {
      return Inconclusive, seen;
    }
    var updated := baseline.value.updatedAt;
    if maxAge > 0 && (updated.None? || now - updated.value > maxAge) {
      return Inconclusive, seen;
    }
    var before := baseline.value.snapshot;
    if window.required > 1 {
      var end;
      seen, end := Observe(before, initial.snapshot, window, env, start, start + window.timeout);
      Ceiling(window.timeout, window.interval, |seen| - 1);
      if end != Recovered {
        return Inconclusive, seen;
      }
      assert Recovers(before, seen[|seen| - 1]);
      PassingIsNotFailure(before, seen[|seen| - 1]);
    }
    verdict := Judge(before, BuildChecks(before, seen[|seen| - 1]));
  }

  /** A usable baseline and a first sample. */
  predicate Comparable(evidence: seq<Evidence>, maxAge: int, initial: Sample, now: int) {
    var baseline := BaselineOf(evidence);
    baseline.Some? && initial.Telemetry? && Usable(baseline.value, maxAge, now)
  }

  /** The baseline is recent enough; an age limit of zero accepts any. */
  predicate Usable(baseline: Baseline, maxAge: int, now: int) {
    maxAge > 0 ==> baseline.updatedAt.Some? && now - baseline.updatedAt.value <= maxAge
  }

  lemma Ceiling(timeout: int, interval: int, n: int)
    requires timeout >= 0 && interval > 0 && (n > 0 ==> (n - 1) * interval < timeout) && n >= 0
    ensures n <= (timeout + interval - 1) / interval
  {
    var q, r := (timeout + interval - 1) / interval, (timeout + interval - 1) % interval;
    DivMod(timeout + interval - 1, interval);
    Times(n - 1, q, interval);
  }

  lemma DivMod(a: int, b: int)
    requires b > 0
    ensures a == a / b * b + a % b && 0 <= a % b < b
  {
  }

  lemma Times(a: int, b: int, c: int)
    requires c > 0
    ensures a >= b ==> a * c >= b * c
  {
    if a >= b {
      assert (a - b) * c >= 0;
      assert a * c == b * c + (a - b) * c;
    }
  }
}
