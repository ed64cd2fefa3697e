/** Healing._rate_ok of netpulse/healing.py: how often one rule may run for one host. */
module RateLimit {

  /** (rule index, host) */
  type Key = (nat, string)

  function PerHour(maxPerHour: int): nat
    ensures PerHour(maxPerHour) >= 1 && PerHour(maxPerHour) >= maxPerHour
    ensures PerHour(maxPerHour) == 1 || PerHour(maxPerHour) == maxPerHour
  {
    if maxPerHour > 1 then maxPerHour else 1
  }

  /** 3600 / max(1, max_per_hour) */
  function Period(maxPerHour: int): (p: real)
    ensures p > 0.0
  {
    3600.0 / PerHour(maxPerHour) as real
  }

  function LastRun(last: map<Key, real>, key: Key): real { if key in last then last[key] else 0.0 }

  predicate Allowed(last: map<Key, real>, key: Key, maxPerHour: int, now: real)
  {
    now - LastRun(last, key) >= Period(maxPerHour)
  }

  /** _rate_ok: the new table; the answer is Allowed. */
  function AfterCheck(last: map<Key, real>, key: Key, maxPerHour: int, now: real): map<Key, real>
  {
    if Allowed(last, key, maxPerHour, now) then last[key := now] else last
  }

  /** A request for one key of one rule at a clock reading; readings may go back. */
  type Request = (Key, real)

  function Table(limit: nat -> int, requests: seq<Request>): map<Key, real>
  {
    if requests == [] then map[]
    else
      var (key, now) := requests[|requests| - 1];
      AfterCheck(Table(limit, requests[..|requests| - 1]), key, limit(key.0), now)
  }

  /** The readings at which requests for a key were let through. */
  function Accepted(limit: nat -> int, requests: seq<Request>, key: Key): seq<real>
  {
    if requests == [] then []
    else
      var init, (k, now) := requests[..|requests| - 1], requests[|requests| - 1];
      var before := Accepted(limit, init, key);
      if k == key && Allowed(Table(limit, init), key, limit(key.0), now) then before + [now] else before
  }

  /** The requests that were let through, in order. */
  function LetThrough(limit: nat -> int, requests: seq<Request>): seq<Request>
  {
    if requests == [] then []
    else
      var init, (key, now) := requests[..|requests| - 1], requests[|requests| - 1];
      var before := LetThrough(limit, init);
      if Allowed(Table(limit, init), key, limit(key.0), now) then before + [(key, now)] else before
  }

  /** The readings of one key. */
  function TimesOf(starts: seq<Request>, key: Key): seq<real>
  {
    if starts == [] then []
    else
      var before := TimesOf(starts[..|starts| - 1], key);
      if starts[|starts| - 1].0 == key then before + [starts[|starts| - 1].1] else before
  }

  lemma {:induction false} LetThroughIsAccepted(limit: nat -> int, requests: seq<Request>, key: Key)
    ensures TimesOf(LetThrough(limit, requests), key) == Accepted(limit, requests, key)
  {
    if requests != [] {
      var init, last := requests[..|requests| - 1], requests[|requests| - 1];
      LetThroughIsAccepted(limit, init, key);
      var before := LetThrough(limit, init);
      assert (before + [last])[..|before|] == before;
    }
  }

  lemma OneMoreCheck(limit: nat -> int, requests: seq<Request>, r: Request)
    ensures var ok := Allowed(Table(limit, requests), r.0, limit(r.0.0), r.1);
            Table(limit, requests + [r]) == AfterCheck(Table(limit, requests), r.0, limit(r.0.0), r.1)
            && LetThrough(limit, requests + [r]) == LetThrough(limit, requests) + if ok then [r] else []
  {
    assert (requests + [r])[..|requests|] == requests;
  }

  predicate Spaced(times: seq<real>, p: real)
  {
    forall i, j :: 0 <= i < j < |times| ==> times[j] - times[i] >= p
  }

  /** What a key was let through at is increasing by at least the period, whatever the clock does. */
  lemma {:induction false} AcceptedSpaced(limit: nat -> int, requests: seq<Request>, key: Key)
    ensures var times := Accepted(limit, requests, key);
            Spaced(times, Period(limit(key.0)))
            && LastRun(Table(limit, requests), key) == (if times == [] then 0.0 else times[|times| - 1])
  {
    if requests != [] {
      AcceptedSpaced(limit, requests[..|requests| - 1], key);
    }
  }

  /** Requests of a key, one at each of some readings. */
  function RequestsAt(key: Key, times: seq<real>): (r: seq<Request>)
    ensures |r| == |times|
  {
    seq(|times|, i requires 0 <= i < |times| => (key, times[i]))
  }

  /** And no more is refused than that takes: requests a period apart are all let through. */
  lemma {:induction false} SpacedIsAccepted(limit: nat -> int, key: Key, times: seq<real>)
    requires Spaced(times, Period(limit(key.0))) && (times != [] ==> times[0] >= Period(limit(key.0)))
    ensures Accepted(limit, RequestsAt(key, times), key) == times
  {
    if times != [] {
      var n := |times| - 1;
      assert Spaced(times[..n], Period(limit(key.0)));
      SpacedIsAccepted(limit, key, times[..n]);
      hide Table, Period, Spaced;
      AcceptedSpaced(limit, RequestsAt(key, times[..n]), key);
      assert RequestsAt(key, times)[..n] == RequestsAt(key, times[..n]);
      assert times == times[..n] + [times[n]];
      assert n > 0 ==> times[n] - times[n - 1] >= Period(limit(key.0));
    }
  }

  predicate InWindow(t: real, w: real) { w <= t < w + 3600.0 }

  function CountIn(times: seq<real>, w: real): nat
  {
    if times == [] then 0 else CountIn(times[..|times| - 1], w) + (if InWindow(times[|times| - 1], w) then 1 else 0)
  }

  /** The earliest moment at which the n-th of a series spaced by p, begun at w, can come. */
  function Earliest(w: real, n: nat, p: real): real { w + n as real * p }

  lemma EarliestStep(w: real, n: nat, p: real)
    ensures Earliest(w, n + 1, p) == Earliest(w, n, p) + p
  {
    assert (n + 1) as real == n as real + 1.0;
  }

  lemma {:induction false} CountedIsLate(times: seq<real>, p: real, w: real)
    requires Spaced(times, p) && p > 0.0 && CountIn(times, w) > 0
    ensures exists i :: 0 <= i < |times| && InWindow(times[i], w) && times[i] >= Earliest(w, CountIn(times, w) - 1, p)
  {
    hide Earliest;
    var n := |times| - 1;
    var init := times[..n];
    if CountIn(init, w) == 0 {
      assert InWindow(times[n], w) && CountIn(times, w) == 1;
      assert Earliest(w, 0, p) == w by { AtStart(w, p); }
    } else {
      CountedIsLate(init, p, w);
      var i :| 0 <= i < n && InWindow(init[i], w) && init[i] >= Earliest(w, CountIn(init, w) - 1, p);
      assert times[i] == init[i];
      if InWindow(times[n], w) {
        assert times[n] >= times[i] + p;
        EarliestStep(w, CountIn(init, w) - 1, p);
      }
    }
  }

  lemma AtStart(w: real, p: real)
    ensures Earliest(w, 0, p) == w
  {
  }

  lemma FitsInHour(w: real, n: nat, m: nat)
    requires m > 0 && Earliest(w, n, 3600.0 / m as real) < w + 3600.0
    ensures n < m
  {
    var p := 3600.0 / m as real;
    assert m as real * p == 3600.0;
    if n >= m { ProductGrows(n, m, p); }
  }

  lemma ProductGrows(n: nat, m: nat, p: real)
    requires n >= m && p > 0.0
    ensures n as real * p >= m as real * p
  {
  }

  /** Readings spaced by the period of a rule are at most max(1, max_per_hour) in any window of 3600 seconds. */
  lemma SpacedFit(times: seq<real>, maxPerHour: int, w: real)
    requires Spaced(times, Period(maxPerHour))
    ensures CountIn(times, w) <= PerHour(maxPerHour)
  {
    hide Earliest;
    if CountIn(times, w) > 0 {
      CountedIsLate(times, Period(maxPerHour), w);
      FitsInHour(w, CountIn(times, w) - 1, PerHour(maxPerHour));
    }
  }

  /** In any window of 3600 seconds a key is let through at most max(1, max_per_hour) times. */
  lemma WindowLimit(limit: nat -> int, requests: seq<Request>, key: Key, w: real)
    ensures CountIn(Accepted(limit, requests, key), w) <= PerHour(limit(key.0))
  {
    AcceptedSpaced(limit, requests, key);
    SpacedFit(Accepted(limit, requests, key), limit(key.0), w);
  }
}
