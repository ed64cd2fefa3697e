/** availability of netpulse/sysadmin.py: a sweep over transitions, and what it counts. */
module Availability {
  import opened Wrappers

  /** An event with its parsed time, if it parses; times are whole seconds here. */
  datatype Event = Event(at: Option<int>, kind: string)

  /** A change of state at a time. */
  type Transition = (int, bool)

  function ToTransition(e: Event, end: int): Option<Transition>
  {
    if e.at.None? || e.at.value > end then None
    else if e.kind == "ONLINE" || e.kind == "WATCH_ONLINE" then Some((e.at.value, true))
    else if e.kind == "OFFLINE" || e.kind == "WATCH_OFFLINE" then Some((e.at.value, false))
    else None
  }

  function Transitions(events: seq<Event>, end: int): (r: seq<Transition>)
    ensures forall x :: x in r ==> x.0 <= end
  {
    if events == [] then []
    else
      var init := Transitions(events[..|events| - 1], end);
      match ToTransition(events[|events| - 1], end)
      case None => init
      case Some(t) => init + [t]
  }

  // ---------- the stable sort by time ----------

  predicate Sorted(s: seq<Transition>)
  {
    forall i, j :: 0 <= i < j < |s| ==> s[i].0 <= s[j].0
  }

  function Insert(s: seq<Transition>, x: Transition): (r: seq<Transition>)
    ensures |r| == |s| + 1 && multiset(r) == multiset(s) + multiset{x}
  {
    if s == [] || s[|s| - 1].0 <= x.0 then s + [x]
    else
      assert s == s[..|s| - 1] + [s[|s| - 1]];
      Insert(s[..|s| - 1], x) + [s[|s| - 1]]
  }

  function Sort(s: seq<Transition>): (r: seq<Transition>)
    ensures |r| == |s| && multiset(r) == multiset(s)
  {
    if s == [] then []
    else
      assert s == s[..|s| - 1] + [s[|s| - 1]];
      Insert(Sort(s[..|s| - 1]), s[|s| - 1])
  }

  lemma {:induction false} InsertSorted(s: seq<Transition>, x: Transition)
    requires Sorted(s)
    ensures Sorted(Insert(s, x))
    ensures Insert(s, x)[|s|].0 == if s == [] || s[|s| - 1].0 <= x.0 then x.0 else s[|s| - 1].0
  {
    if s != [] && s[|s| - 1].0 > x.0 {
      InsertSorted(s[..|s| - 1], x);
    }
  }

  lemma {:induction false} SortSorted(s: seq<Transition>)
    ensures Sorted(Sort(s))
  {
    if s != [] {
      SortSorted(s[..|s| - 1]);
      InsertSorted(Sort(s[..|s| - 1]), s[|s| - 1]);
    }
  }

  // ---------- the pointwise definition ----------

  /** The latest transition at or before t; of several at one time, the one listed last. */
  function Latest(s: seq<Transition>, t: int): Option<Transition>
  {
    if s == [] then None
    else
      var before := Latest(s[..|s| - 1], t);
      var x := s[|s| - 1];
      if x.0 <= t && (before.None? || before.value.0 <= x.0) then Some(x) else before
  }

  function StateAt(s: seq<Transition>, t: int): Option<bool>
  {
    match Latest(s, t)
    case None => None
    case Some(x) => Some(x.1)
  }

  /** How many instants of [a, b) are in a state. */
  function Instants(s: seq<Transition>, state: Option<bool>, a: int, b: int): nat
    decreases b - a
  {
    if b <= a then 0
    else Instants(s, state, a, b - 1) + (if StateAt(s, b - 1) == state then 1 else 0)
  }

  lemma {:induction false} InstantsSplit(s: seq<Transition>, state: Option<bool>, a: int, m: int, b: int)
    requires a <= m <= b
    ensures Instants(s, state, a, b) == Instants(s, state, a, m) + Instants(s, state, m, b)
    decreases b - m
  {
    if m < b { InstantsSplit(s, state, a, m, b - 1); }
  }

  lemma {:induction false} InstantsConstant(s: seq<Transition>, state: Option<bool>, held: Option<bool>, a: int, b: int)
    requires a <= b && forall t :: a <= t < b ==> StateAt(s, t) == held
    ensures Instants(s, state, a, b) == if held == state then b - a else 0
    decreases b - a
  {
    if a < b { InstantsConstant(s, state, held, a, b - 1); }
  }

  /** Every instant is online, offline or unknown. */
  lemma {:induction false} InstantsPartition(s: seq<Transition>, a: int, b: int)
    requires a <= b
    ensures Instants(s, Some(true), a, b) + Instants(s, Some(false), a, b) + Instants(s, None, a, b) == b - a
    decreases b - a
  {
    if a < b {
      InstantsPartition(s, a, b - 1);
      var held := StateAt(s, b - 1);
      if held.Some? { var on: bool := held.value; assert held == Some(true) || held == Some(false); }
    }
  }

  lemma LatestSnoc(s: seq<Transition>, x: Transition, t: int)
    ensures Latest(s + [x], t) == if x.0 <= t && (Latest(s, t).None? || Latest(s, t).value.0 <= x.0) then Some(x)
                                  else Latest(s, t)
  {
    assert (s + [x])[..|s|] == s;
  }

  lemma {:induction false} InsertLatest(s: seq<Transition>, x: Transition, t: int)
    requires Sorted(s)
    ensures Latest(Insert(s, x), t) == Latest(s + [x], t)
  {
    hide Latest;
    if s != [] && s[|s| - 1].0 > x.0 {
      var init, y := s[..|s| - 1], s[|s| - 1];
      InsertLatest(init, x, t);
      assert forall z :: z in init ==> z.0 <= y.0;
      assert s == init + [y];
      LatestIsEarlier(init, t);
      LatestSnoc(init, x, t);
      LatestSnoc(init, y, t);
      LatestSnoc(s, x, t);
      LatestSnoc(Insert(init, x), y, t);
    }
  }

  lemma {:induction false} LatestIsEarlier(s: seq<Transition>, t: int)
    ensures Latest(s, t).Some? ==> Latest(s, t).value in s && Latest(s, t).value.0 <= t
  {
    if s != [] { LatestIsEarlier(s[..|s| - 1], t); }
  }

  /** Sorting changes no answer. */
  lemma {:induction false} SortLatest(s: seq<Transition>, t: int)
    ensures Latest(Sort(s), t) == Latest(s, t)
  {
    if s != [] {
      var init, x := s[..|s| - 1], s[|s| - 1];
      SortLatest(init, t);
      SortSorted(init);
      InsertLatest(Sort(init), x, t);
      assert (Sort(init) + [x])[..|init|] == Sort(init);
    }
  }

  lemma {:induction false} SortInstants(s: seq<Transition>, state: Option<bool>, a: int, b: int)
    ensures Instants(Sort(s), state, a, b) == Instants(s, state, a, b)
    decreases b - a
  {
    if a < b {
      SortInstants(s, state, a, b - 1);
      SortLatest(s, b - 1);
    }
  }

  /** In a sorted list the latest transition at t is the last one not after t. */
  lemma {:induction false} LatestSorted(s: seq<Transition>, i: nat, t: int)
    requires Sorted(s) && i <= |s| && (i < |s| ==> s[i].0 > t) && (i > 0 ==> s[i - 1].0 <= t)
    ensures Latest(s, t) == if i == 0 then None else Some(s[i - 1])
    decreases |s|
  {
    if s != [] {
      var n := |s| - 1;
      if i == |s| {
        LatestIsEarlier(s[..n], t);
      } else {
        LatestSorted(s[..n], i, t);
      }
    }
  }

  // ---------- the events themselves ----------

  predicate Up(e: Event) { e.kind in {"ONLINE", "WATCH_ONLINE"} }

  predicate Down(e: Event) { e.kind in {"OFFLINE", "WATCH_OFFLINE"} }

  /** The event tells a state, at t or before. */
  predicate Tells(e: Event, t: int) { e.at.Some? && e.at.value <= t && (Up(e) || Down(e)) }

  /** The latest event that tells a state at t; of several at one time, the one listed last. */
  predicate IsLast(events: seq<Event>, i: nat, t: int)
  {
    && i < |events| && Tells(events[i], t)
    && forall j :: 0 <= j < |events| && Tells(events[j], t) ==>
         events[j].at.value < events[i].at.value || (events[j].at.value == events[i].at.value && j <= i)
  }

  ghost predicate UpAt(events: seq<Event>, t: int) { exists i: nat :: IsLast(events, i, t) && Up(events[i]) }

  ghost predicate DownAt(events: seq<Event>, t: int) { exists i: nat :: IsLast(events, i, t) && Down(events[i]) }

  ghost function UpInstants(events: seq<Event>, a: int, b: int): set<int>
  {
    set t | a <= t < b && UpAt(events, t)
  }

  ghost function DownInstants(events: seq<Event>, a: int, b: int): set<int>
  {
    set t | a <= t < b && DownAt(events, t)
  }

  /** The transition an event makes. */
  predicate Makes(e: Event, x: Transition) { e.at == Some(x.0) && if x.1 then Up(e) else Down(e) }

  predicate LastAgrees(events: seq<Event>, last: Option<Transition>, i: nat, t: int)
  {
    if last.None? then forall e <- events :: !Tells(e, t)
    else IsLast(events, i, t) && Makes(events[i], last.value)
  }

  /** The latest transition is that of the last event that tells a state. */
  lemma {:induction false} LatestIsLast(events: seq<Event>, end: int, t: int) returns (i: nat)
    requires t <= end
    ensures LastAgrees(events, Latest(Transitions(events, end), t), i, t)
  {
    i := 0;
    if events != [] {
      var n := |events| - 1;
      i := LatestIsLast(events[..n], end, t);
      hide Latest, LastAgrees, Transitions;
      i := OneMoreLast(events[..n], events[n], end, i, t);
      assert events == events[..n] + [events[n]];
    }
  }

  lemma OneMoreLast(init: seq<Event>, e: Event, end: int, i: nat, t: int) returns (k: nat)
    requires t <= end && LastAgrees(init, Latest(Transitions(init, end), t), i, t)
    ensures LastAgrees(init + [e], Latest(Transitions(init + [e], end), t), k, t)
  {
    hide Latest, IsLast, Transitions;
    var s := Transitions(init, end);
    OneMoreEvent(init, e, end);
    assert (init + [e])[|init|] == e;
    k := i;
    if Tells(e, t) {
      LatestSnoc(s, (e.at.value, Up(e)), t);
      if Latest(s, t).None? || Latest(s, t).value.0 <= e.at.value {
        LastIsNew(init, e, i, Latest(s, t), t);
        k := |init|;
        assert Latest(Transitions(init + [e], end), t) == Some((e.at.value, Up(e)));
      } else {
        LastStays(init, e, i, t);
        assert Latest(Transitions(init + [e], end), t) == Latest(s, t);
      }
    } else {
      if ToTransition(e, end).Some? { LatestSnoc(s, ToTransition(e, end).value, t); }
      assert Transitions(init, end) + [] == Transitions(init, end);
      assert Latest(Transitions(init + [e], end), t) == Latest(s, t);
      if Latest(s, t).Some? { LastStays(init, e, i, t); }
    }
  }

  lemma OneMoreEvent(init: seq<Event>, e: Event, end: int)
    ensures Transitions(init + [e], end)
         == Transitions(init, end) + if ToTransition(e, end).Some? then [ToTransition(e, end).value] else []
  {
    assert (init + [e])[..|init|] == init;
    assert Transitions(init, end) + [] == Transitions(init, end);
  }

  lemma LastIsNew(init: seq<Event>, e: Event, i: nat, last: Option<Transition>, t: int)
    requires Tells(e, t)
    requires if last.None? then forall x <- init :: !Tells(x, t)
             else IsLast(init, i, t) && Makes(init[i], last.value) && last.value.0 <= e.at.value
    ensures IsLast(init + [e], |init|, t)
  {
    forall j | 0 <= j < |init| && Tells((init + [e])[j], t) ensures init[j].at.value <= e.at.value {
      assert init[j] in init;
    }
  }

  lemma LastStays(init: seq<Event>, e: Event, i: nat, t: int)
    requires IsLast(init, i, t) && (Tells(e, t) ==> e.at.value < init[i].at.value)
    ensures IsLast(init + [e], i, t) && (init + [e])[i] == init[i]
  {
  }

  lemma LastIsOne(events: seq<Event>, i: nat, j: nat, t: int)
    requires IsLast(events, i, t) && IsLast(events, j, t)
    ensures i == j
  {
  }

  /** The state at an instant is that of the latest event that tells one. */
  lemma StateOfEvents(events: seq<Event>, end: int, t: int)
    requires t <= end
    ensures StateAt(Transitions(events, end), t) == Some(true) <==> UpAt(events, t)
    ensures StateAt(Transitions(events, end), t) == Some(false) <==> DownAt(events, t)
  {
    hide IsLast, Latest, Transitions;
    var i := LatestIsLast(events, end, t);
    var last := Latest(Transitions(events, end), t);
    forall j: nat | IsLast(events, j, t) ensures last.Some? && j == i {
      LastTells(events, j, t);
      if last.Some? { LastIsOne(events, i, j, t); }
    }
  }

  lemma LastTells(events: seq<Event>, i: nat, t: int)
    requires IsLast(events, i, t)
    ensures exists e <- events :: Tells(e, t)
  {
    assert events[i] in events;
  }

  /** The instants counted for a state are those at which the latest event tells it. */
  lemma {:induction false} InstantsOfEvents(events: seq<Event>, end: int, a: int, b: int)
    requires b <= end
    ensures Instants(Transitions(events, end), Some(true), a, b) == |UpInstants(events, a, b)|
    ensures Instants(Transitions(events, end), Some(false), a, b) == |DownInstants(events, a, b)|
    decreases b - a
  {
    hide UpAt, DownAt, Transitions, StateAt;
    if a < b {
      var t := b - 1;
      InstantsOfEvents(events, end, a, t);
      StateOfEvents(events, end, t);
      UpGrows(events, a, t);
      DownGrows(events, a, t);
    } else {
      assert UpInstants(events, a, b) == {} && DownInstants(events, a, b) == {};
    }
  }

  lemma UpGrows(events: seq<Event>, a: int, t: int)
    requires a <= t
    ensures |UpInstants(events, a, t + 1)| == |UpInstants(events, a, t)| + if UpAt(events, t) then 1 else 0
  {
    hide UpAt;
    assert UpInstants(events, a, t + 1) == UpInstants(events, a, t) + if UpAt(events, t) then {t} else {};
  }

  lemma DownGrows(events: seq<Event>, a: int, t: int)
    requires a <= t
    ensures |DownInstants(events, a, t + 1)| == |DownInstants(events, a, t)| + if DownAt(events, t) then 1 else 0
  {
    hide DownAt;
    assert DownInstants(events, a, t + 1) == DownInstants(events, a, t) + if DownAt(events, t) then {t} else {};
  }

  /** An event without a time, or of any other kind, changes no count. */
  lemma OtherEventsCountNothing(before: seq<Event>, e: Event, after: seq<Event>, end: int)
    requires e.at.None? || !(Up(e) || Down(e))
    ensures Transitions(before + [e] + after, end) == Transitions(before + after, end)
  {
    TransitionsConcat(before + [e], after, end);
    TransitionsConcat(before, [e], end);
    TransitionsConcat(before, after, end);
    assert [e][..0] == [];
  }

  lemma {:induction false} TransitionsConcat(a: seq<Event>, b: seq<Event>, end: int)
    ensures Transitions(a + b, end) == Transitions(a, end) + Transitions(b, end)
  {
    if b == [] {
      assert a + b == a;
    } else {
      TransitionsConcat(a, b[..|b| - 1], end);
      assert (a + b)[..|a + b| - 1] == a + b[..|b| - 1];
    }
  }

  // ---------- the sweep ----------

  datatype Report = Report(up: nat, down: nat, unknown: int, window: int, observed: Option<real>, coverage: real,
                           sla: Option<real>)

  /** The loop over the sorted transitions and the closing (end, None). */
  method Sweep(s: seq<Transition>, start: int, end: int) returns (up: nat, down: nat)
    requires Sorted(s) && forall x :: x in s ==> x.0 <= end
    ensures up == Instants(s, Some(true), start, end) && down == Instants(s, Some(false), start, end)
  {
    var cursor := start;
    var state: Option<bool> := None;
    up, down := 0, 0;
    for i := 0 to |s| + 1
      invariant start <= cursor && (i <= |s| ==> cursor == start || (i > 0 && cursor == s[i - 1].0))
      invariant i <= |s| ==> state == if i == 0 then None else Some(s[i - 1].1)
      invariant 0 < i <= |s| ==> s[i - 1].0 <= cursor
      invariant i <= |s| ==> up == Instants(s, Some(true), start, cursor)
      invariant i <= |s| ==> down == Instants(s, Some(false), start, cursor)
      invariant i == |s| + 1 ==> up == Instants(s, Some(true), start, end)
      invariant i == |s| + 1 ==> down == Instants(s, Some(false), start, end)
    {
      var (at, next) := if i < |s| then (s[i].0, Some(s[i].1)) else (end, None);
      assert i < |s| ==> s[i] in s;
      if at < start {
        if i < |s| { assert cursor == start; }
        state := next;
      } else {
        forall t | cursor <= t < at ensures StateAt(s, t) == state { LatestSorted(s, i, t); }
        InstantsConstant(s, Some(true), state, cursor, at);
        InstantsConstant(s, Some(false), state, cursor, at);
        InstantsSplit(s, Some(true), start, cursor, at);
        InstantsSplit(s, Some(false), start, cursor, at);
        if state.Some? {
          var duration := if at > cursor then at - cursor else 0;
          if state.value { up := up + duration; } else { down := down + duration; }
        }
        cursor, state := at, next;
      }
    }
  }

  method Collect(events: seq<Event>, end: int) returns (s: seq<Transition>)
    ensures s == Transitions(events, end)
  {
    s := [];
    for i := 0 to |events|
      invariant s == Transitions(events[..i], end)
    {
      assert events[..i + 1][..i] == events[..i];
      var t := ToTransition(events[i], end);
      if t.Some? { s := s + [t.value]; }
    }
    assert events[..|events|] == events;
  }

  /** The figures derived from the counts; the source rounds them. */
  predicate Figures(r: Report, start: int, end: int)
  {
    var known := r.up + r.down;
    && r.window == (if start < end then end - start else 1)
    && known + r.unknown == r.window
    && (r.observed.Some? <==> known > 0)
    && (r.observed.Some? ==> r.observed.value * known as real == 100.0 * r.up as real)
    && r.coverage * r.window as real == 100.0 * known as real && 0.0 <= r.coverage <= 100.0
    && r.sla == if r.coverage >= 95.0 then r.observed else None
  }

  /** Up and down are the instants spent in each state, and what is left is the unknown time. */
  method Availability(events: seq<Event>, start: int, end: int) returns (r: Report)
    ensures r.up == Instants(Transitions(events, end), Some(true), start, end)
    ensures r.down == Instants(Transitions(events, end), Some(false), start, end)
    ensures start < end ==> r.unknown == Instants(Transitions(events, end), None, start, end)
    ensures r.up == |UpInstants(events, start, end)| && r.down == |DownInstants(events, start, end)|
    ensures var known, window := r.up + r.down, if start < end then end - start else 1;
            && (r.sla.Some? <==> known > 0 && 100 * known >= 95 * window)
            && (r.sla.Some? ==> r.sla.value * known as real == (100 * r.up) as real)
    ensures Figures(r, start, end)
  {
    hide Figures, Latest, StateAt, UpInstants, DownInstants;
    InstantsOfEvents(events, end, start, end);
    var s := Collect(events, end);
    SortSorted(s);
    SortMembers(s);
    var up, down := Sweep(Sort(s), start, end);
    SortInstants(s, Some(true), start, end);
    SortInstants(s, Some(false), start, end);
    if start <= end { InstantsPartition(s, start, end); }
    r := Summarize(up, down, start, end);
    SlaWhen(r, start, end);
  }

  /** The figure is given exactly when the known time is at least 95 per cent of the window. */
  lemma SlaWhen(r: Report, start: int, end: int)
    requires Figures(r, start, end)
    ensures var known, window := r.up + r.down, if start < end then end - start else 1;
            && (r.sla.Some? <==> known > 0 && 100 * known >= 95 * window)
            && (r.sla.Some? ==> r.sla.value * known as real == (100 * r.up) as real)
  {
    var known, window := r.up + r.down, if start < end then end - start else 1;
    var k, w := known as real, window as real;
    assert r.window == window && r.coverage * w == 100.0 * k;
    assert (100 * known) as real == 100.0 * k && (95 * window) as real == 95.0 * w;
    assert (100 * r.up) as real == 100.0 * r.up as real;
    CoverageIff(r.coverage, k, w);
  }

  lemma CoverageIff(c: real, k: real, w: real)
    requires w > 0.0 && c * w == 100.0 * k
    ensures c >= 95.0 <==> 100.0 * k >= 95.0 * w
  {
    if c >= 95.0 { ScaleUp(c, 95.0, w); } else { Scale(95.0, c, w); }
  }

  lemma ScaleUp(a: real, b: real, w: real)
    requires a >= b && w > 0.0
    ensures a * w >= b * w
  {
  }

  method Summarize(up: nat, down: nat, start: int, end: int) returns (r: Report)
    requires up + down <= if start < end then end - start else 0
    ensures r.up == up && r.down == down && Figures(r, start, end)
    ensures start < end ==> up + down + r.unknown == end - start
  {
    var known := up + down;
    var window := if end - start > 1 then end - start else 1;
    Ratio(known, window);
    var coverage := 100.0 * known as real / window as real;
    if coverage > 100.0 { coverage := 100.0; }
    var observed := None;
    if known > 0 { observed := Some(100.0 * up as real / known as real); }
    var unknown := if window - known > 0 then window - known else 0;
    r := Report(up, down, unknown, window, observed, coverage, if coverage >= 95.0 then observed else None);
  }

  lemma Ratio(known: nat, window: int)
    requires known <= window && window >= 1
    ensures var c := 100.0 * known as real / window as real;
            c * window as real == 100.0 * known as real && 0.0 <= c <= 100.0
  {
    var k, w := known as real, window as real;
    var c := 100.0 * k / w;
    assert c * w == 100.0 * k;
    if c > 100.0 { Scale(c, 100.0, w); }
    if c < 0.0 { Scale(0.0, c, w); }
  }

  lemma Scale(a: real, b: real, w: real)
    requires a > b && w > 0.0
    ensures a * w > b * w
  {
  }

  lemma SortMembers(s: seq<Transition>)
    ensures forall x :: x in Sort(s) <==> x in s
  {
    forall x ensures x in Sort(s) <==> x in s {
      assert x in Sort(s) <==> x in multiset(Sort(s));
      assert x in s <==> x in multiset(s);
    }
  }

  // ---------- order independence ----------

  predicate DistinctTimes(s: seq<Transition>)
  {
    forall x, y :: x in s && y in s && x.0 == y.0 ==> x == y
  }

  lemma {:induction false} LatestIsMaximal(s: seq<Transition>, t: int)
    ensures Latest(s, t).Some? ==> Latest(s, t).value in s && Latest(s, t).value.0 <= t
    ensures forall x :: x in s && x.0 <= t ==> Latest(s, t).Some? && x.0 <= Latest(s, t).value.0
  {
    if s != [] {
      LatestIsMaximal(s[..|s| - 1], t);
      assert forall x :: x in s ==> x in s[..|s| - 1] || x == s[|s| - 1];
    }
  }

  /** Transitions at distinct times count the same in any order. */
  lemma {:induction false} OrderIsIrrelevant(a: seq<Transition>, b: seq<Transition>, state: Option<bool>, start: int,
                                             end: int)
    requires DistinctTimes(a) && forall x :: x in a <==> x in b
    ensures Instants(a, state, start, end) == Instants(b, state, start, end)
    decreases end - start
  {
    if start < end {
      OrderIsIrrelevant(a, b, state, start, end - 1);
      LatestIsMaximal(a, end - 1);
      LatestIsMaximal(b, end - 1);
    }
  }

  /** At an instant the latest time is shared by two opposite transitions. */
  predicate TiedAt(s: seq<Transition>, t: int)
  {
    var last := Latest(s, t);
    last.Some? && (last.value.0, !last.value.1) in s
  }

  /** As long as spent in every state. */
  predicate SameCounts(a: seq<Transition>, b: seq<Transition>, start: int, end: int)
  {
    Instants(a, Some(true), start, end) == Instants(b, Some(true), start, end)
    && Instants(a, Some(false), start, end) == Instants(b, Some(false), start, end)
    && Instants(a, None, start, end) == Instants(b, None, start, end)
  }

  predicate SameMembers(a: seq<Transition>, b: seq<Transition>)
  {
    (forall x <- a :: x in b) && (forall x <- b :: x in a)
  }

  lemma PermutedMembers(a: seq<Transition>, b: seq<Transition>)
    requires multiset(a) == multiset(b)
    ensures SameMembers(a, b)
  {
    forall x | x in a ensures x in b { assert x in multiset(a); }
    forall x | x in b ensures x in a { assert x in multiset(b); }
  }

  lemma LatestTimes(a: seq<Transition>, b: seq<Transition>, t: int)
    requires SameMembers(a, b) && Latest(a, t).Some?
    ensures Latest(b, t).Some? && Latest(b, t).value.0 >= Latest(a, t).value.0
    ensures Latest(a, t).value in b
  {
    hide Latest;
    LatestIsMaximal(a, t);
    LatestIsMaximal(b, t);
    var x := Latest(a, t).value;
    assert x in b && x.0 <= t;
  }

  /** The latest time is that of the members; without a tie the state is too. */
  lemma LatestOfMembers(a: seq<Transition>, b: seq<Transition>, t: int)
    requires SameMembers(a, b)
    ensures Latest(a, t).Some? == Latest(b, t).Some?
    ensures Latest(a, t).Some? ==> Latest(a, t).value.0 == Latest(b, t).value.0
    ensures !TiedAt(a, t) ==> StateAt(a, t) == StateAt(b, t)
  {
    hide Latest;
    if Latest(a, t).Some? { LatestTimes(a, b, t); }
    if Latest(b, t).Some? { LatestTimes(b, a, t); }
    if Latest(a, t).Some? {
      var x, y := Latest(a, t).value, Latest(b, t).value;
      assert y == (y.0, y.1) && y == if x.1 == y.1 then x else (x.0, !x.1);
    }
  }

  /** Without a tie in the window its counts are those of any order. */
  lemma {:induction false} UntiedCounts(a: seq<Transition>, b: seq<Transition>, start: int, end: int)
    requires SameMembers(a, b) && forall t :: start <= t < end ==> !TiedAt(a, t)
    ensures SameCounts(a, b, start, end)
    decreases end - start
  {
    hide TiedAt, StateAt;
    if start < end {
      UntiedCounts(a, b, start, end - 1);
      LatestOfMembers(a, b, end - 1);
    }
  }

  function Only(s: seq<Transition>, state: bool): seq<Transition>
  {
    if s == [] then []
    else
      var before := Only(s[..|s| - 1], state);
      if s[|s| - 1].1 == state then before + [s[|s| - 1]] else before
  }

  /** The transitions to one state behind all others. */
  function Behind(s: seq<Transition>, state: bool): seq<Transition> { Only(s, !state) + Only(s, state) }

  lemma {:induction false} OnlySplits(s: seq<Transition>, state: bool)
    ensures multiset(Only(s, !state)) + multiset(Only(s, state)) == multiset(s)
    ensures forall x :: x in Only(s, state) <==> x in s && x.1 == state
  {
    if s != [] {
      var init, x := s[..|s| - 1], s[|s| - 1];
      OnlySplits(init, state);
      assert s == init + [x];
    }
  }

  lemma BehindPermutes(s: seq<Transition>, state: bool)
    ensures multiset(Behind(s, state)) == multiset(s)
  {
    OnlySplits(s, state);
  }

  lemma {:induction false} LatestConcat(a: seq<Transition>, b: seq<Transition>, t: int)
    ensures var x, y := Latest(a, t), Latest(b, t);
            Latest(a + b, t) == if y.Some? && (x.None? || x.value.0 <= y.value.0) then y else x
  {
    if b == [] {
      assert a + b == a;
    } else {
      var init, x := b[..|b| - 1], b[|b| - 1];
      LatestConcat(a, init, t);
      LatestSnoc(a + init, x, t);
      assert a + b == (a + init) + [x];
    }
  }

  /** With the transitions to a state behind, a tie goes to that state; and it is the state wherever it can be. */
  lemma BehindWins(s: seq<Transition>, state: bool, t: int)
    ensures TiedAt(s, t) ==> StateAt(Behind(s, state), t) == Some(state)
    ensures StateAt(s, t) == Some(state) ==> StateAt(Behind(s, state), t) == Some(state)
  {
    LatestIsMaximal(s, t);
    if Latest(s, t).Some? {
      var at := Latest(s, t).value.0;
      var mine, other := Only(s, state), Only(s, !state);
      OnlySplits(s, state);
      OnlySplits(s, !state);
      LatestConcat(other, mine, t);
      LatestIsMaximal(mine, t);
      LatestIsMaximal(other, t);
      if TiedAt(s, t) || StateAt(s, t) == Some(state) {
        assert (at, state) in mine;
      }
    }
  }

  /** A tie in the window is worth an instant at least. */
  lemma {:induction false} TieCounts(s: seq<Transition>, start: int, end: int)
    requires start <= end
    ensures Instants(Behind(s, true), Some(true), start, end) >= Instants(Behind(s, false), Some(true), start, end)
    ensures (exists t :: start <= t < end && TiedAt(s, t)) ==>
              Instants(Behind(s, true), Some(true), start, end) > Instants(Behind(s, false), Some(true), start, end)
    decreases end - start
  {
    if start < end {
      TieCounts(s, start, end - 1);
      TieAt(s, end - 1);
    }
  }

  lemma TieAt(s: seq<Transition>, t: int)
    ensures StateAt(Behind(s, false), t) == Some(true) ==> StateAt(Behind(s, true), t) == Some(true)
    ensures TiedAt(s, t) ==> StateAt(Behind(s, true), t) == Some(true) && StateAt(Behind(s, false), t) == Some(false)
  {
    BehindWins(s, true, t);
    BehindWins(s, false, t);
    if !TiedAt(s, t) {
      BehindPermutes(s, true);
      BehindPermutes(s, false);
      PermutedMembers(s, Behind(s, true));
      PermutedMembers(s, Behind(s, false));
      LatestOfMembers(s, Behind(s, true), t);
      LatestOfMembers(s, Behind(s, false), t);
    }
  }

  /** The order of the input makes no difference to a window exactly when no instant of it has a tie. */
  lemma OrderMattersIff(s: seq<Transition>, start: int, end: int)
    ensures (forall b :: multiset(b) == multiset(s) ==> SameCounts(s, b, start, end))
       <==> forall t :: start <= t < end ==> !TiedAt(s, t)
  {
    hide TiedAt;
    if forall t :: start <= t < end ==> !TiedAt(s, t) {
      forall b | multiset(b) == multiset(s) ensures SameCounts(s, b, start, end) {
        PermutedMembers(s, b);
        UntiedCounts(s, b, start, end);
      }
    } else {
      TieCounts(s, start, end);
      BehindPermutes(s, true);
      BehindPermutes(s, false);
      assert !(SameCounts(s, Behind(s, true), start, end) && SameCounts(s, Behind(s, false), start, end));
    }
  }

  /** The smallest such case: of two opposite transitions at one time the later listed wins. */
  lemma TiesDependOnOrder(t: int)
    ensures Instants([(t, true), (t, false)], Some(true), t, t + 1) == 0
    ensures Instants([(t, false), (t, true)], Some(true), t, t + 1) == 1
  {
    var a: seq<Transition>, b: seq<Transition> := [(t, true), (t, false)], [(t, false), (t, true)];
    assert a[..1] == [(t, true)] && b[..1] == [(t, false)];
    assert Latest([(t, true)], t) == Some((t, true)) && Latest([(t, false)], t) == Some((t, false));
    assert Latest(a, t) == Some((t, false)) && Latest(b, t) == Some((t, true));
  }
}
