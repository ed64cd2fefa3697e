/**
 _rate_ok of netpulse/healing.py called by several threads.  It holds no lock: it takes the time, reads
 `_last_run`, and writes it, and between any two of these another thread may run.
 */
module RateRace {
  import opened RateLimit

  type Thread = nat

  /**
   Where a thread is inside _rate_ok: it has the time, or it has found the last run old enough.  How many
   starts of the key it has seen is kept for the sake of what is proved.
   */
  datatype Check = Timed(key: Key, now: real) | Passed(key: Key, now: real, seen: nat)

  /** What was let through is kept in order. */
  datatype World = World(last: map<Key, real>, checks: map<Thread, Check>, starts: seq<Request>)

  datatype Step = Begin(t: Thread, key: Key, now: real) | Compare(t: Thread) | Write(t: Thread)

  const START := World(map[], map[], [])

  predicate Enabled(w: World, s: Step)
  {
    match s
    case Begin(t, _, _) => t !in w.checks
    case Compare(t) => t in w.checks && w.checks[t].Timed?
    case Write(t) => t in w.checks && w.checks[t].Passed?
  }

  /** One step; one that cannot happen does nothing. */
  function After(limit: nat -> int, w: World, s: Step): World
  {
    if !Enabled(w, s) then w
    else
      match s
      case Begin(t, key, now) => w.(checks := w.checks[t := Timed(key, now)])
      case Compare(t) =>
        var c := w.checks[t];
        if Allowed(w.last, c.key, limit(c.key.0), c.now)
        then w.(checks := w.checks[t := Passed(c.key, c.now, |TimesOf(w.starts, c.key)|)])
        else w.(checks := w.checks - {t})
      case Write(t) =>
        var c := w.checks[t];
        World(w.last[c.key := c.now], w.checks - {t}, w.starts + [(c.key, c.now)])
  }

  function Run(limit: nat -> int, steps: seq<Step>): World
  {
    if steps == [] then START else After(limit, Run(limit, steps[..|steps| - 1]), steps[|steps| - 1])
  }

  function Last(times: seq<real>): real { if times == [] then 0.0 else times[|times| - 1] }

  /** The table holds the last start of a key. */
  lemma {:induction false} TableIsLast(limit: nat -> int, steps: seq<Step>, key: Key)
    ensures var w := Run(limit, steps);
            LastRun(w.last, key) == Last(TimesOf(w.starts, key)) && (key in w.last <==> TimesOf(w.starts, key) != [])
  {
    if steps == [] {
    } else {
      hide Allowed, Period;
      var w, s := Run(limit, steps[..|steps| - 1]), steps[|steps| - 1];
      TableIsLast(limit, steps[..|steps| - 1], key);
      if Enabled(w, s) && s.Write? {
        hide TimesOf;
        TimesSnoc(w.starts, (w.checks[s.t].key, w.checks[s.t].now), key);
      }
    }
  }

  // ---------- checks of one key that do not overlap ----------

  /** No check of a key begins while another of the same key is under way. */
  ghost predicate Alone(limit: nat -> int, steps: seq<Step>, key: Key)
  {
    steps == [] ||
    (Alone(limit, steps[..|steps| - 1], key) &&
     var w, s := Run(limit, steps[..|steps| - 1]), steps[|steps| - 1];
     (Enabled(w, s) && s.Begin? && s.key == key ==> forall u <- w.checks :: w.checks[u].key != key))
  }

  /** One thread at most checks the key, and what it has found still holds. */
  predicate Undisturbed(limit: nat -> int, w: World, key: Key)
  {
    && (forall t, u :: t in w.checks && u in w.checks && w.checks[t].key == key && w.checks[u].key == key ==> t == u)
    && (forall t <- w.checks :: w.checks[t].key == key && w.checks[t].Passed? ==>
        Allowed(w.last, key, limit(key.0), w.checks[t].now))
  }

  lemma StepUndisturbed(limit: nat -> int, w: World, s: Step, key: Key)
    requires Undisturbed(limit, w, key)
    requires Enabled(w, s) && s.Begin? && s.key == key ==> forall u <- w.checks :: w.checks[u].key != key
    ensures Undisturbed(limit, After(limit, w, s), key)
    ensures Enabled(w, s) && s.Write? && w.checks[s.t].key == key ==>
            Allowed(w.last, key, limit(key.0), w.checks[s.t].now)
  {
    hide Period;
  }

  lemma {:induction false} AloneIsSpaced(limit: nat -> int, steps: seq<Step>, key: Key)
    requires Alone(limit, steps, key)
    ensures Undisturbed(limit, Run(limit, steps), key)
    ensures Spaced(TimesOf(Run(limit, steps).starts, key), Period(limit(key.0)))
  {
    if steps != [] {
      var w, s := Run(limit, steps[..|steps| - 1]), steps[|steps| - 1];
      AloneIsSpaced(limit, steps[..|steps| - 1], key);
      TableIsLast(limit, steps[..|steps| - 1], key);
      StepUndisturbed(limit, w, s, key);
      hide Undisturbed, Allowed, Period, TimesOf, Spaced;
      if Enabled(w, s) && s.Write? {
        WriteSpaces(limit, w, s.t, key);
      }
    }
  }

  /** A write keeps the starts of its key apart exactly when the comparison it rests on still holds. */
  lemma WriteSpaces(limit: nat -> int, w: World, t: Thread, key: Key)
    requires t in w.checks && w.checks[t].Passed?
    requires Spaced(TimesOf(w.starts, key), Period(limit(key.0)))
    requires LastRun(w.last, key) == Last(TimesOf(w.starts, key)) && (key in w.last <==> TimesOf(w.starts, key) != [])
    ensures Spaced(TimesOf(After(limit, w, Write(t)).starts, key), Period(limit(key.0)))
       <==> w.checks[t].key != key || key !in w.last || Allowed(w.last, key, limit(key.0), w.checks[t].now)
  {
    hide Spaced, Period, TimesOf;
    var c := w.checks[t];
    var before := TimesOf(w.starts, key);
    TimesSnoc(w.starts, (c.key, c.now), key);
    assert before == [] ==> before + [c.now] == [c.now];
    OneIsSpaced(c.now, Period(limit(key.0)));
    if c.key == key && before != [] {
      SpacedSnoc(before, c.now, Period(limit(key.0)));
    }
  }

  lemma TimesSnoc(starts: seq<Request>, r: Request, key: Key)
    ensures TimesOf(starts + [r], key) == if r.0 == key then TimesOf(starts, key) + [r.1] else TimesOf(starts, key)
  {
    assert (starts + [r])[..|starts|] == starts;
  }

  lemma OneIsSpaced(now: real, p: real)
    ensures Spaced([now], p)
  {
  }

  lemma SpacedSnoc(times: seq<real>, now: real, p: real)
    requires Spaced(times, p) && p > 0.0 && times != []
    ensures Spaced(times + [now], p) <==> now - times[|times| - 1] >= p
  {
    var more, n := times + [now], |times|;
    if Spaced(more, p) {
      assert more[n] - more[n - 1] >= p;
    }
  }

  /** Where checks of a pair never overlap it is started at most max(1, max_per_hour) times in any hour. */
  lemma AloneIsLimited(limit: nat -> int, steps: seq<Step>, key: Key, w: real)
    requires Alone(limit, steps, key)
    ensures CountIn(TimesOf(Run(limit, steps).starts, key), w) <= PerHour(limit(key.0))
  {
    AloneIsSpaced(limit, steps, key);
    SpacedFit(TimesOf(Run(limit, steps).starts, key), limit(key.0), w);
  }

  // ---------- any checks at all ----------

  /** Every write of a key comes while the comparison it rests on still holds of the table. */
  predicate WritesFresh(limit: nat -> int, steps: seq<Step>, key: Key)
  {
    steps == [] ||
    (WritesFresh(limit, steps[..|steps| - 1], key) &&
     var w, s := Run(limit, steps[..|steps| - 1]), steps[|steps| - 1];
     (Enabled(w, s) && s.Write? && w.checks[s.t].key == key && key in w.last ==>
        Allowed(w.last, key, limit(key.0), w.checks[s.t].now)))
  }

  /**
   In every interleaving the starts of a pair are a period apart exactly when each write would pass its
   check again.
   */
  lemma {:induction false} SpacedIff(limit: nat -> int, steps: seq<Step>, key: Key)
    ensures Spaced(TimesOf(Run(limit, steps).starts, key), Period(limit(key.0))) <==> WritesFresh(limit, steps, key)
  {
    if steps != [] {
      var init, s := steps[..|steps| - 1], steps[|steps| - 1];
      var w := Run(limit, init);
      SpacedIff(limit, init, key);
      TableIsLast(limit, init, key);
      if Enabled(w, s) && s.Write? {
        var more := w.starts + [(w.checks[s.t].key, w.checks[s.t].now)];
        assert more[..|w.starts|] == w.starts;
        if WritesFresh(limit, init, key) {
          WriteSpaces(limit, w, s.t, key);
        } else if Spaced(TimesOf(more, key), Period(limit(key.0))) {
          SpacedInit(TimesOf(w.starts, key), w.checks[s.t].now, Period(limit(key.0)));
        }
      }
    }
  }

  lemma SpacedInit(times: seq<real>, now: real, p: real)
    requires Spaced(times + [now], p)
    ensures Spaced(times, p)
  {
    forall i, j | 0 <= i < j < |times| ensures times[j] - times[i] >= p {
      assert (times + [now])[i] == times[i] && (times + [now])[j] == times[j];
    }
  }

  // ---------- writes that come between a comparison and its write ----------

  /** No other check of the key has written between the comparison of a check that writes and its write. */
  predicate Unshared(limit: nat -> int, steps: seq<Step>, key: Key)
  {
    steps == [] ||
    (Unshared(limit, steps[..|steps| - 1], key) &&
     var w, s := Run(limit, steps[..|steps| - 1]), steps[|steps| - 1];
     (Enabled(w, s) && s.Write? && w.checks[s.t].key == key ==> w.checks[s.t].seen == |TimesOf(w.starts, key)|))
  }

  /**
   Every check of the key takes less than a period: when it writes, no check under way has a reading a
   period after its own.
   */
  ghost predicate Brief(limit: nat -> int, steps: seq<Step>, key: Key)
  {
    steps == [] ||
    (Brief(limit, steps[..|steps| - 1], key) &&
     var w, s := Run(limit, steps[..|steps| - 1]), steps[|steps| - 1];
     (Enabled(w, s) && s.Write? && w.checks[s.t].key == key ==>
        forall u <- w.checks :: w.checks[u].key == key ==>
          w.checks[u].now < w.checks[s.t].now + Period(limit(key.0))))
  }

  /** What a check has found of the starts it has seen, and how far it is from those it has not. */
  predicate Seen(c: Check, times: seq<real>, p: real, brief: bool)
  {
    c.Passed? ==> c.seen <= |times| && c.now - Last(times[..c.seen]) >= p
                  && (brief ==> forall i :: c.seen <= i < |times| ==> c.now < times[i] + p)
  }

  ghost predicate AllSeen(limit: nat -> int, w: World, key: Key, brief: bool)
  {
    forall t <- w.checks :: w.checks[t].key == key ==>
      Seen(w.checks[t], TimesOf(w.starts, key), Period(limit(key.0)), brief)
  }

  lemma SeenGrows(c: Check, times: seq<real>, more: real, p: real, brief: bool)
    requires Seen(c, times, p, brief) && (brief ==> c.now < more + p)
    ensures Seen(c, times + [more], p, brief)
  {
    if c.Passed? { assert (times + [more])[..c.seen] == times[..c.seen]; }
  }

  lemma {:induction false} SeenInRun(limit: nat -> int, steps: seq<Step>, key: Key, brief: bool)
    requires brief ==> Brief(limit, steps, key)
    ensures AllSeen(limit, Run(limit, steps), key, brief)
  {
    if steps != [] {
      var init, s := steps[..|steps| - 1], steps[|steps| - 1];
      SeenInRun(limit, init, key, brief);
      TableIsLast(limit, init, key);
      SeenAfter(limit, Run(limit, init), s, key, brief);
    }
  }

  lemma SeenAfter(limit: nat -> int, w: World, s: Step, key: Key, brief: bool)
    requires AllSeen(limit, w, key, brief) && LastRun(w.last, key) == Last(TimesOf(w.starts, key))
    requires brief && Enabled(w, s) && s.Write? && w.checks[s.t].key == key ==>
               forall u <- w.checks :: w.checks[u].key == key ==>
                 w.checks[u].now < w.checks[s.t].now + Period(limit(key.0))
    ensures AllSeen(limit, After(limit, w, s), key, brief)
  {
    hide Period, TimesOf, Last;
    var v := After(limit, w, s);
    var times := TimesOf(w.starts, key);
    assert times[..|times|] == times;
    if Enabled(w, s) && s.Write? {
      var c := w.checks[s.t];
      TimesSnoc(w.starts, (c.key, c.now), key);
      forall t | t in v.checks && v.checks[t].key == key
        ensures Seen(v.checks[t], TimesOf(v.starts, key), Period(limit(key.0)), brief)
      {
        if c.key == key { SeenGrows(v.checks[t], times, c.now, Period(limit(key.0)), brief); }
      }
    }
  }

  /** Where no write comes between the comparison and the write of another check, every write is fresh. */
  lemma {:induction false} UnsharedIsFresh(limit: nat -> int, steps: seq<Step>, key: Key)
    requires Unshared(limit, steps, key)
    ensures WritesFresh(limit, steps, key)
  {
    if steps != [] {
      var init, s := steps[..|steps| - 1], steps[|steps| - 1];
      UnsharedIsFresh(limit, init, key);
      SeenInRun(limit, init, key, false);
      TableIsLast(limit, init, key);
      var times := TimesOf(Run(limit, init).starts, key);
      assert times[..|times|] == times;
    }
  }

  /** ... and so the starts of the pair are at most max(1, max_per_hour) in any hour. */
  lemma UnsharedIsLimited(limit: nat -> int, steps: seq<Step>, key: Key, w: real)
    requires Unshared(limit, steps, key)
    ensures CountIn(TimesOf(Run(limit, steps).starts, key), w) <= PerHour(limit(key.0))
  {
    UnsharedIsFresh(limit, steps, key);
    SpacedIff(limit, steps, key);
    SpacedFit(TimesOf(Run(limit, steps).starts, key), limit(key.0), w);
  }

  lemma UnseenIsClose(c: Check, times: seq<real>, p: real)
    requires Seen(c, times, p, true) && c.Passed?
    ensures c.seen <= |times| && (c.seen < |times| ==> c.now - Last(times) < p)
  {
    if c.seen < |times| { assert c.now < times[|times| - 1] + p; }
  }

  lemma {:induction false} FreshIsUnshared(limit: nat -> int, steps: seq<Step>, key: Key)
    requires Brief(limit, steps, key) && WritesFresh(limit, steps, key)
    ensures Unshared(limit, steps, key)
  {
    if steps != [] {
      var init, s := steps[..|steps| - 1], steps[|steps| - 1];
      FreshIsUnshared(limit, init, key);
      SeenInRun(limit, init, key, true);
      TableIsLast(limit, init, key);
      var w := Run(limit, init);
      if Enabled(w, s) && s.Write? && w.checks[s.t].key == key {
        var c, times := w.checks[s.t], TimesOf(w.starts, key);
        UnseenIsClose(c, times, Period(limit(key.0)));
      }
    }
  }

  /**
   Where every check takes less than a period that is exact: the starts of a pair are a period apart
   exactly when no write of the pair comes between the comparison and the write of another of its checks.
   */
  lemma BriefIsExact(limit: nat -> int, steps: seq<Step>, key: Key)
    requires Brief(limit, steps, key)
    ensures Spaced(TimesOf(Run(limit, steps).starts, key), Period(limit(key.0))) <==> Unshared(limit, steps, key)
  {
    SpacedIff(limit, steps, key);
    if WritesFresh(limit, steps, key) { FreshIsUnshared(limit, steps, key); }
    if Unshared(limit, steps, key) { UnsharedIsFresh(limit, steps, key); }
  }

  /** Two threads that both compare before either writes. */
  function Race(key: Key, now: real): seq<Step>
  {
    [Begin(0, key, now), Begin(1, key, now), Compare(0), Compare(1), Write(0), Write(1)]
  }

  /** They are both let through, at one and the same reading: too often for a rule that may run once an hour. */
  lemma RaceExceeds(limit: nat -> int, key: Key, now: real)
    requires now >= Period(limit(key.0))
    ensures TimesOf(Run(limit, Race(key, now)).starts, key) == [now, now]
    ensures !WritesFresh(limit, Race(key, now), key)
    ensures CountIn([now, now], now) == 2 && (limit(key.0) <= 1 ==> CountIn([now, now], now) > PerHour(limit(key.0)))
  {
    var r := Race(key, now);
    assert r[..5][..4] == r[..4] && r[..4][..3] == r[..3] && r[..3][..2] == r[..2] && r[..2][..1] == r[..1]
           && r[..1][..0] == [];
    var w2 := World(map[], map[0 := Timed(key, now), 1 := Timed(key, now)], []);
    assert Run(limit, r[..2]) == w2 by { assert Run(limit, r[..1]) == World(map[], map[0 := Timed(key, now)], []); }
    var w4 := World(map[], map[0 := Passed(key, now, 0), 1 := Passed(key, now, 0)], []);
    assert Run(limit, r[..4]) == w4 by {
      assert Run(limit, r[..3]) == World(map[], map[0 := Passed(key, now, 0), 1 := Timed(key, now)], []);
    }
    var w5 := World(map[key := now], map[1 := Passed(key, now, 0)], [(key, now)]);
    assert Run(limit, r[..5]) == w5;
    assert r[..|r| - 1] == r[..5];
    assert Run(limit, r) == World(map[key := now], map[], [(key, now), (key, now)]);
    TwoTimes(key, now);
    SpacedIff(limit, r, key);
    NotSpaced(now, Period(limit(key.0)));
  }

  lemma NotSpaced(now: real, p: real)
    requires p > 0.0
    ensures !Spaced([now, now], p)
  {
    assert [now, now][1] - [now, now][0] == 0.0;
  }

  lemma TwoTimes(key: Key, now: real)
    ensures TimesOf([(key, now), (key, now)], key) == [now, now] && CountIn([now, now], now) == 2
  {
    assert [(key, now), (key, now)][..1] == [(key, now)] && [now, now][..1] == [now];
    assert TimesOf([(key, now)], key) == [now] && CountIn([now], now) == 1;
  }
}
