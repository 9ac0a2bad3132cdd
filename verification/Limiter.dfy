/** The sliding-window limiter of the login and webhook routes: per key a slice of admission times that
    is compacted in place on every call. */
module Limiter {
  /** The times after the cutoff, in order. */
  function Recent(times: seq<int>, cutoff: int): seq<int> {
    if times == [] then []
    else
      var last := times[|times| - 1];
      var before := Recent(times[..|times| - 1], cutoff);
      if last > cutoff then before + [last] else before
  }

  const DEFAULT_WINDOW := 60 // seconds

  function EffectiveWindow(window: int): int {
    if window <= 0 then DEFAULT_WINDOW else window
  }

  /** A Go slice: a prefix of its backing array. */
  datatype Slice = Slice(data: array<int>, len: nat)

  class SlidingLimiter {
    var attempts: map<string, Slice>

    ghost predicate Valid()
      reads this
    {
      && (forall k :: k in attempts ==> attempts[k].len <= attempts[k].data.Length)
      && (forall j, k :: j in attempts && k in attempts && j != k ==> attempts[j].data != attempts[k].data)
    }

    ghost function Arrays(): set<object>
      reads this
    {
      set k | k in attempts :: attempts[k].data
    }

    /** The admissions remembered for the key. */
    ghost function Times(key: string): seq<int>
      requires Valid()
      reads this, Arrays()
    {
      if key in attempts then attempts[key].data[..attempts[key].len] else []
    }

    constructor ()
      ensures Valid() && fresh(this) && attempts == map[]
    {
      attempts := map[];
    }

    /** The loop over items := attempts[key][:0]. Writing stays behind reading, so nothing unread is
        overwritten, and the kept prefix is the filtered sequence. */
    static method Compact(data: array<int>, len: nat, cutoff: int) returns (kept: nat)
      requires len <= data.Length
      modifies data
      ensures kept <= len && data[..kept] == Recent(old(data[..len]), cutoff)
    {
      kept := 0;
      var i := 0;
      assert data[..0] == [];
      while i < len
        invariant 0 <= kept <= i <= len
        invariant data[..kept] == Recent(old(data[..i]), cutoff)
        invariant data[i..len] == old(data[i..len])
      {
        assert old(data[..i + 1])[..i] == old(data[..i]);
        assert data[i] == data[i..len][0] && data[i] == old(data[i]);
        var item := data[i];
        if item > cutoff {
          data[kept] := item;
          assert data[..kept + 1] == data[..kept] + [item];
          kept := kept + 1;
        }
        assert data[i + 1..len] == old(data[i + 1..len]);
        i := i + 1;
      }
    }

    /** append: in place while the capacity lasts, into a larger array afterwards. */
    static method Append(data: array<int>, len: nat, item: int) returns (slice: Slice)
      requires len <= data.Length
      modifies data
      ensures slice.len == len + 1 <= slice.data.Length && (slice.data == data || fresh(slice.data))
      ensures slice.data[..len + 1] == old(data[..len]) + [item]
    {
      if len < data.Length {
        data[len] := item;
        return Slice(data, len + 1);
      }
      var larger := new int[2 * len + 1](_ => 0);
      var i := 0;
      while i < len
        invariant 0 <= i <= len && larger[..i] == data[..i] && data[..len] == old(data[..len])
      {
        larger[i] := data[i];
        assert larger[..i + 1] == larger[..i] + [data[i]] && data[..i + 1] == data[..i] + [data[i]];
        i := i + 1;
      }
      larger[len] := item;
      assert larger[..len] == data[..len];
      slice := Slice(larger, len + 1);
    }

    /** allowWindow: admit the call unless the window already holds limit admissions. */
    method AllowWindow(key: string, now: int, limit: int, window: int) returns (ok: bool)
      requires Valid()
      modifies this`attempts, if key in attempts then {attempts[key].data} else {}
      ensures Valid()
      ensures var recent := Recent(old(Times(key)), now - if window > 0 then window else 60);
              ok == (|recent| < limit) && Times(key) == if ok then recent + [now] else recent
      ensures forall other :: other != key ==> Times(other) == old(Times(other))
      ensures forall k :: k in attempts && !(k in old(attempts) && attempts[k].data == old(attempts)[k].data) ==> fresh(attempts[k].data)
    {
      hide Recent;
      var data, len;
      if key in attempts {
        data, len := attempts[key].data, attempts[key].len;
      } else {
        data, len := new int[0](_ => 0), 0;
      }
      assert data[..len] == old(Times(key));
      var span := if window <= 0 then 60 else window;
      var kept := Compact(data, len, now - span);
      ghost var recent := Recent(old(Times(key)), now - span);
      assert data[..kept] == recent && |recent| == kept;
      if kept >= limit {
        attempts := attempts[key := Slice(data, kept)];
        return false;
      }
      var slice := Append(data, kept, now);
      assert slice.data[..slice.len] == recent + [now];
      attempts := attempts[key := slice];
      ok := true;
    }

    /** allow: the login route's own copy of the loop, with its limit and window written in. */
    method Allow(key: string, now: int) returns (ok: bool)
      requires Valid()
      modifies this`attempts, if key in attempts then {attempts[key].data} else {}
      ensures Valid()
      ensures var recent := Recent(old(Times(key)), now - 300);
              ok == (|recent| < 5) && Times(key) == if ok then recent + [now] else recent
      ensures forall other :: other != key ==> Times(other) == old(Times(other))
    {
      hide Recent;
      var data, len;
      if key in attempts {
        data, len := attempts[key].data, attempts[key].len;
      } else {
        data, len := new int[0](_ => 0), 0;
      }
      assert data[..len] == old(Times(key));
      var kept := Compact(data, len, now - 300);
      if kept >= 5 {
        attempts := attempts[key := Slice(data, kept)];
        return false;
      }
      var slice := Append(data, kept, now);
      attempts := attempts[key := slice];
      ok := true;
    }
  }

  // ----- Whole runs

  datatype Call = Call(key: string, now: int)

  /** The times remembered for the key after the calls. */
  function After(calls: seq<Call>, key: string, limit: int, window: int): seq<int> {
    if calls == [] then []
    else
      var last, before := calls[|calls| - 1], After(calls[..|calls| - 1], key, limit, window);
      if last.key != key then before
      else
        var recent := Recent(before, last.now - window);
        if |recent| < limit then recent + [last.now] else recent
  }

  /** Is the last call admitted? */
  predicate Accepts(calls: seq<Call>, limit: int, window: int)
    requires calls != []
  {
    var last := calls[|calls| - 1];
    |Recent(After(calls[..|calls| - 1], last.key, limit, window), last.now - window)| < limit
  }

  lemma NothingAfter(calls: seq<Call>, limit: int, window: int)
    ensures forall key :: After(calls[..0], key, limit, window) == []
  {
    assert calls[..0] == [];
  }

  lemma AfterNext(calls: seq<Call>, n: nat, limit: int, window: int)
    requires n < |calls|
    ensures forall key :: key != calls[n].key ==> After(calls[..n + 1], key, limit, window) == After(calls[..n], key, limit, window)
    ensures var recent := Recent(After(calls[..n], calls[n].key, limit, window), calls[n].now - window);
            && Accepts(calls[..n + 1], limit, window) == (|recent| < limit)
            && After(calls[..n + 1], calls[n].key, limit, window) == if |recent| < limit then recent + [calls[n].now] else recent
  {
    assert calls[..n + 1][..n] == calls[..n] && calls[..n + 1][n] == calls[n];
  }

  /** Replaying any calls on a limiter answers each of them as Accepts says. */
  method Replay(calls: seq<Call>, limit: int, window: int) returns (verdicts: seq<bool>)
    ensures |verdicts| == |calls|
    ensures forall k :: 0 <= k < |calls| ==> verdicts[k] == Accepts(calls[..k + 1], limit, EffectiveWindow(window))
  {
    hide Recent, SlidingLimiter.Valid, After, Accepts;
    var limiter := new SlidingLimiter();
    verdicts := [];
    ghost var span := EffectiveWindow(window);
    NothingAfter(calls, limit, span);
    while |verdicts| < |calls|
      invariant |verdicts| <= |calls| && limiter.Valid() && fresh(limiter)
      invariant forall k :: k in limiter.attempts ==> fresh(limiter.attempts[k].data)
      invariant forall key :: limiter.Times(key) == After(calls[..|verdicts|], key, limit, span)
      invariant forall k :: 0 <= k < |verdicts| ==> verdicts[k] == Accepts(calls[..k + 1], limit, span)
    {
      var n := |verdicts|;
      var call := calls[n];
      AfterNext(calls, n, limit, span);
      var ok := limiter.AllowWindow(call.key, call.now, limit, window);
      verdicts := verdicts + [ok];
    }
  }

  /** The times at which calls with the key were admitted. */
  function Admissions(calls: seq<Call>, key: string, limit: int, window: int): seq<int> {
    if calls == [] then []
    else
      var last, before := calls[|calls| - 1], Admissions(calls[..|calls| - 1], key, limit, window);
      if last.key == key && Accepts(calls, limit, window) then before + [last.now] else before
  }

  /** The calls with the key come in order. */
  predicate Ordered(calls: seq<Call>, key: string) {
    forall j, k :: 0 <= j < k < |calls| && calls[j].key == key && calls[k].key == key ==> calls[j].now <= calls[k].now
  }

  lemma {:induction false} RecentOfRecent(times: seq<int>, cutoff: int, later: int)
    requires cutoff <= later
    ensures Recent(Recent(times, cutoff), later) == Recent(times, later)
  {
    if times != [] {
      var last, before := times[|times| - 1], times[..|times| - 1];
      RecentOfRecent(before, cutoff, later);
      if last > cutoff {
        var kept := Recent(before, cutoff) + [last];
        assert kept[..|kept| - 1] == Recent(before, cutoff);
      }
    }
  }

  lemma RecentSnoc(times: seq<int>, time: int, cutoff: int)
    ensures Recent(times + [time], cutoff) == if time > cutoff then Recent(times, cutoff) + [time] else Recent(times, cutoff)
  {
    assert (times + [time])[..|times|] == times;
  }

  lemma {:induction false} RecentAll(times: seq<int>, cutoff: int)
    requires forall k :: 0 <= k < |times| ==> times[k] <= cutoff
    ensures Recent(times, cutoff) == []
  {
    if times != [] {
      RecentAll(times[..|times| - 1], cutoff);
    }
  }

  /** One admitted or rejected call changes what is remembered and what was admitted alike. */
  lemma RemembersOne(kept: seq<int>, admitted: seq<int>, time: int, accepted: bool, cutoff: int, later: int)
    requires cutoff <= later && Recent(kept, cutoff) == Recent(admitted, cutoff) && Recent(kept, later) == Recent(admitted, later)
    ensures var recent := Recent(kept, cutoff);
            Recent(if accepted then recent + [time] else recent, later) == Recent(if accepted then admitted + [time] else admitted, later)
  {
    RecentOfRecent(kept, cutoff, later);
    RecentSnoc(Recent(kept, cutoff), time, later);
    RecentSnoc(admitted, time, later);
  }

  /** What is remembered of a key is its recent admissions: the limiter forgets nothing that can matter. */
  lemma {:induction false} RemembersAdmissions(calls: seq<Call>, key: string, limit: int, window: int, now: int)
    requires Ordered(calls, key) && forall k :: 0 <= k < |calls| && calls[k].key == key ==> calls[k].now <= now
    ensures Recent(After(calls, key, limit, window), now - window) == Recent(Admissions(calls, key, limit, window), now - window)
  {
    hide Recent;
    if calls != [] {
      var last, before := calls[|calls| - 1], calls[..|calls| - 1];
      assert forall k :: 0 <= k < |before| ==> before[k] == calls[k];
      RemembersAdmissions(before, key, limit, window, now);
      if last.key == key {
        RemembersAdmissions(before, key, limit, window, last.now);
        RemembersOne(After(before, key, limit, window), Admissions(before, key, limit, window), last.now,
                     Accepts(calls, limit, window), last.now - window, now - window);
      }
    }
  }

  /** A call is rejected exactly when limit calls with its key were admitted in the window before it. */
  lemma RejectionIsJustified(calls: seq<Call>, limit: int, window: int)
    requires calls != [] && Ordered(calls, calls[|calls| - 1].key)
    ensures var last := calls[|calls| - 1];
            Accepts(calls, limit, window)
            <==> |Recent(Admissions(calls[..|calls| - 1], last.key, limit, window), last.now - window)| < limit
  {
    var last, before := calls[|calls| - 1], calls[..|calls| - 1];
    assert Ordered(before, last.key) by {
      assert forall k :: 0 <= k < |before| ==> before[k] == calls[k];
    }
    RemembersAdmissions(before, last.key, limit, window, last.now);
  }

  /** The times in the half-open interval, in order. */
  function Within(times: seq<int>, from: int, to: int): seq<int> {
    if times == [] then []
    else
      var last, before := times[|times| - 1], Within(times[..|times| - 1], from, to);
      if from < last <= to then before + [last] else before
  }

  lemma {:induction false} WithinIsRecent(times: seq<int>, from: int, to: int)
    ensures |Within(times, from, to)| <= |Recent(times, from)|
  {
    if times != [] {
      WithinIsRecent(times[..|times| - 1], from, to);
    }
  }

  lemma {:induction false} RecentShrinks(times: seq<int>, cutoff: int, later: int)
    requires cutoff <= later
    ensures |Recent(times, later)| <= |Recent(times, cutoff)|
  {
    if times != [] {
      RecentShrinks(times[..|times| - 1], cutoff, later);
    }
  }

  lemma WithinSnoc(times: seq<int>, time: int, from: int, to: int)
    ensures Within(times + [time], from, to) == if from < time <= to then Within(times, from, to) + [time] else Within(times, from, to)
  {
    assert (times + [time])[..|times|] == times;
  }

  /** Over any run, and for every moment t, at most limit calls with the key are admitted in (t - window, t]. */
  lemma {:induction false} AtMostLimitPerWindow(calls: seq<Call>, key: string, limit: int, window: int, t: int)
    requires Ordered(calls, key)
    ensures |Within(Admissions(calls, key, limit, window), t - window, t)| <= if limit > 0 then limit else 0
  {
    hide Recent, Accepts;
    if calls == [] {
      assert Admissions(calls, key, limit, window) == [];
    } else {
      hide Within;
      var last, before := calls[|calls| - 1], calls[..|calls| - 1];
      assert Ordered(before, key) by {
        assert forall k :: 0 <= k < |before| ==> before[k] == calls[k];
      }
      AtMostLimitPerWindow(before, key, limit, window, t);
      if last.key == key && Accepts(calls, limit, window) {
        var admitted := Admissions(before, key, limit, window);
        WithinSnoc(admitted, last.now, t - window, t);
        if t - window < last.now <= t {
          RejectionIsJustified(calls, limit, window);
          WithinIsRecent(admitted, t - window, t);
          RecentShrinks(admitted, last.now - window, t - window);
        }
      }
    }
  }
}
