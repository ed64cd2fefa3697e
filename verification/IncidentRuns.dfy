/**
 The collector, Alertmanager and the operator interleaved.  observe_router and the
 resolved branch of receive_alerts are several transactions each; between two of them
 any other thread may run.  An action is one atomic step of one thread; a disabled
 action leaves the world alone.
 */
module IncidentRuns {
  import opened Wrappers
  import opened Incidents
  import opened Operations

  /** Where a thread stands inside observe_router or receive_alerts. */
  datatype Pc =
    | Idle
    | Polled(poll: Poll, failures: nat, inWindow: bool)
    | PollLooked(poll: Poll, active: Option<Uuid>)
    | Alerts(queue: seq<Checked>, setting: Setting)
    | AlertLooked(queue: seq<Checked>, setting: Setting, active: Option<Uuid>)
    | AlertJudged(queue: seq<Checked>, setting: Setting, active: Option<Uuid>, failing: bool)

  /** Completed calls, in the order they committed. */
  datatype Mark = Called(key: string, created: bool) | Closed(key: string)

  datatype World = World(store: Store, pcs: map<nat, Pc>, marks: seq<Mark>)

  const START := World(EMPTY, map[], [])

  datatype Action =
    | Open_(args: OpenArgs, draw: Draw)
    | Change_(body: Change, actor: string, now: real)
    | Maintain(device: string, until: real, now: real)
    | PollHealth(tid: nat, poll: Poll, now: real)
    | PollLook(tid: nat)
    | PollEnd(tid: nat, draw: Draw)
    | AlertsBegin(tid: nat, queue: seq<Checked>, routers: set<string>, digest: Labels -> string)
    | AlertFire(tid: nat, draw: Draw)
    | AlertLook(tid: nat)
    | AlertJudge(tid: nat)
    | AlertEnd(tid: nat, now: real)

  function PcOf(w: World, tid: nat): Pc { if tid in w.pcs then w.pcs[tid] else Idle }

  /** The one transaction of an action. */
  datatype Tx =
    | Read
    | Opening(args: OpenArgs, draw: Draw)
    | Changing(body: Change, actor: string, now: real)
    | Polling(poll: Poll, now: real)
    | Windowing(device: string, until: real, now: real)

  /** The new world, and whether the call returned rather than raised. */
  function Commit(w: World, tx: Tx): (World, bool)
  {
    match tx
    case Read => (w, true)
    case Opening(args, draw) =>
      var (t, r) := OpenIncident(w.store, args, draw);
      (w.(store := t, marks := if r.Ok? then w.marks + [Called(KeyOf(args, draw), r.value.1)] else w.marks), r.Ok?)
    case Changing(body, actor, now) =>
      var (t, r) := ChangeIncident(w.store, body, actor, now);
      var key := ResolvedKey(w.store, body, actor, now);
      (w.(store := t, marks := if key.Some? then w.marks + [Closed(key.value)] else w.marks), r.Ok?)
    case Polling(poll, now) => (w.(store := RecordHealth(w.store, poll, now)), true)
    case Windowing(device, until, now) => (w.(store := SaveMaintenance(w.store, device, until, now)), true)
  }

  /** Where the thread goes when its transaction returns, and when it raises. */
  datatype Move = Stay | Go(tid: nat, then_: Pc, raised: Pc)

  datatype Plan = Plan(tx: Tx, move: Move)

  const DISABLED := Plan(Read, Stay)

  function PlanPoll(s: Store, pc: Pc, a: Action): Plan
    requires a.PollHealth? || a.PollLook? || a.PollEnd?
  {
    match (pc, a)
    case (Idle, PollHealth(tid, poll, now)) =>
      var t := RecordHealth(s, poll, now);
      var device := DeviceOf(poll.router);
      var next := Polled(poll, FailuresOf(t, device), InMaintenance(s.maintenance, device, now));
      Plan(Polling(poll, now), Go(tid, next, Idle))
    case (Polled(poll, _, _), PollLook(tid)) =>
      if poll.ok then Plan(Read, Go(tid, PollLooked(poll, ActiveId(s, RouterKey(poll.router))), Idle)) else DISABLED
    case (Polled(poll, failures, inWindow), PollEnd(tid, draw)) =>
      if poll.ok then DISABLED
      else if inWindow || failures < 2 then Plan(Read, Go(tid, Idle, Idle))
      else Plan(Opening(UnreachableArgs(poll), draw), Go(tid, Idle, Idle))
    case (PollLooked(poll, active), PollEnd(tid, draw)) =>
      if active.None? then Plan(Read, Go(tid, Idle, Idle))
      else Plan(Changing(ResolveChange(active.value, "Связь восстановлена"), "collector", draw.now),
                Go(tid, Idle, Idle))
    case _ => DISABLED
  }

  function PlanAlerts(s: Store, pc: Pc, a: Action): Plan
    requires a.AlertsBegin? || a.AlertFire? || a.AlertLook? || a.AlertJudge? || a.AlertEnd?
  {
    match (pc, a)
    case (Idle, AlertsBegin(tid, queue, routers, digest)) =>
      Plan(Read, Go(tid, Alerts(queue, Setting(s.maintenance, routers, digest)), Idle))
    case (Alerts(queue, k), AlertFire(tid, draw)) =>
      if queue == [] || !queue[0].firing then DISABLED
      else if InMaintenance(k.windows, AlertDevice(queue[0], k), draw.now) then
        Plan(Read, Go(tid, Alerts(queue[1..], k), Idle))
      else
        var args := OpenArgs(AlertDevice(queue[0], k), queue[0].title, "critical", AlertKey(queue[0], k),
                             "alertmanager");
        Plan(Opening(args, draw), Go(tid, Alerts(queue[1..], k), Idle))
    case (Alerts(queue, k), AlertLook(tid)) =>
      if queue == [] || queue[0].firing then DISABLED
      else Plan(Read, Go(tid, AlertLooked(queue, k, ActiveId(s, AlertKey(queue[0], k))), Idle))
    case (AlertLooked(queue, k, active), AlertJudge(tid)) =>
      if queue == [] then DISABLED
      else Plan(Read, Go(tid, AlertJudged(queue, k, active, Failing(s, queue[0], k)), Idle))
    case (AlertJudged(queue, k, active, failing), AlertEnd(tid, now)) =>
      if queue == [] then DISABLED
      else
        var next := Alerts(queue[1..], k);
        if active.None? || failing then Plan(Read, Go(tid, next, next))
        else Plan(Changing(ResolveChange(active.value, "Alertmanager: восстановление"), "alertmanager", now),
                  Go(tid, next, next))
    case _ => DISABLED
  }

  function PlanOf(w: World, a: Action): Plan
  {
    match a
    case Open_(args, draw) => Plan(Opening(args, draw), Stay)
    case Change_(body, actor, now) => Plan(Changing(body, actor, now), Stay)
    case Maintain(device, until, now) => Plan(Windowing(device, until, now), Stay)
    case PollHealth(tid, _, _) => PlanPoll(w.store, PcOf(w, tid), a)
    case PollLook(tid) => PlanPoll(w.store, PcOf(w, tid), a)
    case PollEnd(tid, _) => PlanPoll(w.store, PcOf(w, tid), a)
    case _ => PlanAlerts(w.store, PcOf(w, a.tid), a)
  }

  function Execute(w: World, p: Plan): World
  {
    var (v, ok) := Commit(w, p.tx);
    match p.move
    case Stay => v
    case Go(tid, next, raised) => v.(pcs := v.pcs[tid := if ok then next else raised])
  }

  function Step(w: World, a: Action): World { Execute(w, PlanOf(w, a)) }

  function Run(w: World, run: seq<Action>): World
    decreases |run|
  {
    if run == [] then w else Step(Run(w, run[..|run| - 1]), run[|run| - 1])
  }

  // ---------- safety over every interleaving ----------

  /** Completed open_incident calls with a key; of those, the ones that created; and resolutions. */
  function Calls(marks: seq<Mark>, key: string): nat
  {
    if marks == [] then 0
    else Calls(marks[..|marks| - 1], key)
         + (if marks[|marks| - 1].Called? && marks[|marks| - 1].key == key then 1 else 0)
  }

  function Creations(marks: seq<Mark>, key: string): nat
  {
    if marks == [] then 0
    else Creations(marks[..|marks| - 1], key) + (if marks[|marks| - 1] == Called(key, true) then 1 else 0)
  }

  function Resolutions(marks: seq<Mark>, key: string): nat
  {
    if marks == [] then 0
    else Resolutions(marks[..|marks| - 1], key) + (if marks[|marks| - 1] == Closed(key) then 1 else 0)
  }

  lemma CountAppend(marks: seq<Mark>, m: Mark, key: string)
    ensures Calls(marks + [m], key) == Calls(marks, key) + (if m.Called? && m.key == key then 1 else 0)
    ensures Creations(marks + [m], key) == Creations(marks, key) + (if m == Called(key, true) then 1 else 0)
    ensures Resolutions(marks + [m], key) == Resolutions(marks, key) + (if m == Closed(key) then 1 else 0)
  {
    assert (marks + [m])[..|marks|] == marks;
  }

  predicate Sound(w: World) { Inv(w.store) }

  predicate Conserved(w: World, key: string)
  {
    Total(Occurrences(key), w.store.incidents) == Calls(w.marks, key)
    && Total(Actives(key), w.store.incidents) == Creations(w.marks, key) - Resolutions(w.marks, key)
  }

  /** Every transaction keeps the store sound, its counts conserved, and resolved incidents resolved. */
  lemma CommitSafe(w: World, tx: Tx, key: string)
    requires Sound(w) && Conserved(w, key)
    ensures var v := Commit(w, tx).0; Sound(v) && Conserved(v, key) && Extends(w.store, v.store)
  {
    hide OpenIncident, ChangeIncident, ResolvedKey, UniqueIds, UniqueActiveKeys, Stamped, Replays, NoOrphans, Total,
         Calls, Creations, Resolutions;
    match tx
    case Read =>
    case Opening(args, draw) =>
      var r := OpenIncident(w.store, args, draw).1;
      OpenKeepsInv(w.store, args, draw);
      OpenExtends(w.store, args, draw);
      OpenCounts(w.store, args, draw, key);
      if r.Ok? { CountAppend(w.marks, Called(KeyOf(args, draw), r.value.1), key); }
    case Changing(body, actor, now) =>
      ChangeKeepsInv(w.store, body, actor, now);
      ChangeExtends(w.store, body, actor, now);
      ChangeCounts(w.store, body, actor, now, key);
      var k := ResolvedKey(w.store, body, actor, now);
      if k.Some? { CountAppend(w.marks, Closed(k.value), key); }
    case Polling(poll, now) => HealthKeepsInv(w.store, poll, now);
    case Windowing(device, until, now) => WindowKeepsInv(w.store, device, until, now);
  }

  lemma ExecuteSafe(w: World, p: Plan, key: string)
    requires Sound(w) && Conserved(w, key)
    ensures var v := Execute(w, p); Sound(v) && Conserved(v, key) && Extends(w.store, v.store)
  {
    CommitSafe(w, p.tx, key);
  }

  lemma {:induction false} RunSafe(w: World, run: seq<Action>, key: string)
    requires Sound(w) && Conserved(w, key)
    ensures var v := Run(w, run); Sound(v) && Conserved(v, key)
    decreases |run|
  {
    if run != [] {
      RunSafe(w, run[..|run| - 1], key);
      ExecuteSafe(Run(w, run[..|run| - 1]), PlanOf(Run(w, run[..|run| - 1]), run[|run| - 1]), key);
    }
  }

  /**
   In every reachable world: one active incident per key at most, status and owner of every
   incident are the replay of its timeline, its times those its status calls for, occurrences
   count the completed calls, and creations less resolutions is the number of active incidents of the key, 0 or 1.
   */
  lemma EveryRun(run: seq<Action>, key: string)
    ensures var w := Run(START, run);
            var open := Creations(w.marks, key) - Resolutions(w.marks, key);
            && UniqueActiveKeys(w.store.incidents)
            && Replays(w.store) && Stamped(w.store.incidents)
            && Total(Occurrences(key), w.store.incidents) == Calls(w.marks, key)
            && Total(Actives(key), w.store.incidents) == open
            && open == (if ActiveByKey(w.store.incidents, key).Some? then 1 else 0)
  {
    RunSafe(START, run, key);
    ActiveTotal(Run(START, run).store.incidents, key);
  }

  /** The unique index never fires, whoever opens next. */
  lemma IndexNeverFires(run: seq<Action>, args: OpenArgs, draw: Draw)
    ensures OpenIncident(Run(START, run).store, args, draw).1 != Err(DuplicateActiveKey)
  {
    RunSafe(START, run, "");
    OpenKeepsInv(Run(START, run).store, args, draw);
  }

  lemma ExtendsTransitive(s: Store, t: Store, u: Store)
    requires Extends(s, t) && Extends(t, u)
    ensures Extends(s, u)
  {
  }

  lemma LastExtends(run: seq<Action>)
    requires run != []
    ensures Extends(Run(START, run[..|run| - 1]).store, Run(START, run).store)
  {
    RunSafe(START, run[..|run| - 1], "");
    ExecuteSafe(Run(START, run[..|run| - 1]), PlanOf(Run(START, run[..|run| - 1]), run[|run| - 1]), "");
  }

  /** Resolved is final: whatever runs afterwards, an incident once resolved stays resolved. */
  lemma {:induction false} ResolvedIsFinal(run: seq<Action>, more: seq<Action>)
    ensures Extends(Run(START, run).store, Run(START, run + more).store)
    decreases |more|
  {
    if more == [] {
      assert run + more == run;
    } else {
      var n := |more| - 1;
      var shorter, whole := run + more[..n], run + more;
      ResolvedIsFinal(run, more[..n]);
      assert whole[..|whole| - 1] == shorter;
      LastExtends(whole);
      ExtendsTransitive(Run(START, run).store, Run(START, shorter).store, Run(START, whole).store);
    }
  }

  // ---------- the steps of one thread, uninterrupted, are the serial operation ----------

  lemma RunSnoc(w: World, run: seq<Action>, a: Action)
    ensures Run(w, run + [a]) == Step(Run(w, run), a)
  {
    assert (run + [a])[..|run|] == run;
  }

  lemma RunThree(w: World, a: Action, b: Action, c: Action)
    ensures Run(w, [a, b, c]) == Step(Step(Step(w, a), b), c)
  {
    RunSnoc(w, [], a);
    RunSnoc(w, [a], b);
    RunSnoc(w, [a, b], c);
    assert [] + [a] == [a] && [a] + [b] == [a, b] && [a, b] + [c] == [a, b, c];
  }

  lemma PollHealthStep(w: World, tid: nat, poll: Poll, now: real)
    requires PcOf(w, tid) == Idle
    ensures var v := Step(w, PollHealth(tid, poll, now));
            var s := RecordHealth(w.store, poll, now);
            var device := DeviceOf(poll.router);
            v.store == s
            && v.pcs == w.pcs[tid := Polled(poll, FailuresOf(s, device), InMaintenance(s.maintenance, device, now))]
  {
  }

  lemma PollLookStep(w: World, tid: nat)
    requires PcOf(w, tid).Polled?
    ensures var v := Step(w, PollLook(tid));
            var poll := PcOf(w, tid).poll;
            v.store == w.store
            && PcOf(v, tid) == if !poll.ok then PcOf(w, tid)
                               else PollLooked(poll, ActiveId(w.store, RouterKey(poll.router)))
  {
  }

  lemma PollEndStep(w: World, tid: nat, draw: Draw)
    requires PcOf(w, tid).PollLooked? || (PcOf(w, tid).Polled? && !PcOf(w, tid).poll.ok)
    ensures var v := Step(w, PollEnd(tid, draw));
            var pc := PcOf(w, tid);
            PcOf(v, tid) == Idle
            && v.store == if pc.PollLooked? then CloseFound(w.store, pc.active, draw.now).0
                          else OpenUnreachable(w.store, pc.poll, pc.failures, pc.inWindow, draw).0
  {
  }

  lemma PollRefinesSerial(w: World, tid: nat, poll: Poll, now: real, draw: Draw)
    requires PcOf(w, tid) == Idle
    ensures var v := Run(w, [PollHealth(tid, poll, now), PollLook(tid), PollEnd(tid, draw)]);
            v.store == ObserveRouter(w.store, poll, now, draw).0 && PcOf(v, tid) == Idle
  {
    var a := Step(w, PollHealth(tid, poll, now));
    PollHealthStep(w, tid, poll, now);
    PollLookStep(a, tid);
    PollEndStep(Step(a, PollLook(tid)), tid, draw);
    RunThree(w, PollHealth(tid, poll, now), PollLook(tid), PollEnd(tid, draw));
  }

  lemma AlertLookStep(w: World, tid: nat)
    requires PcOf(w, tid).Alerts? && PcOf(w, tid).queue != [] && !PcOf(w, tid).queue[0].firing
    ensures var v := Step(w, AlertLook(tid));
            var pc := PcOf(w, tid);
            v.store == w.store && v.pcs == w.pcs[tid := PcOf(v, tid)]
            && PcOf(v, tid) == AlertLooked(pc.queue, pc.setting, ActiveId(w.store, AlertKey(pc.queue[0], pc.setting)))
  {
  }

  lemma AlertJudgeStep(w: World, tid: nat)
    requires PcOf(w, tid).AlertLooked? && PcOf(w, tid).queue != []
    ensures var v := Step(w, AlertJudge(tid));
            var pc := PcOf(w, tid);
            v.store == w.store && v.pcs == w.pcs[tid := PcOf(v, tid)]
            && PcOf(v, tid) == AlertJudged(pc.queue, pc.setting, pc.active, Failing(w.store, pc.queue[0], pc.setting))
  {
  }

  lemma AlertEndStep(w: World, tid: nat, now: real)
    requires PcOf(w, tid).AlertJudged? && PcOf(w, tid).queue != []
    ensures var v := Step(w, AlertEnd(tid, now));
            var pc := PcOf(w, tid);
            v.store == SettleAlert(w.store, pc.active, pc.failing, now).0
            && PcOf(v, tid) == Alerts(pc.queue[1..], pc.setting)
  {
    hide ChangeIncident;
  }

  lemma ResolvedRefinesSerial(w: World, tid: nat, draw: Draw)
    requires PcOf(w, tid).Alerts? && PcOf(w, tid).queue != [] && !PcOf(w, tid).queue[0].firing
    ensures var v := Run(w, [AlertLook(tid), AlertJudge(tid), AlertEnd(tid, draw.now)]);
            var pc := PcOf(w, tid);
            v.store == HandleAlert(w.store, pc.queue[0], pc.setting, draw).0
            && PcOf(v, tid) == Alerts(pc.queue[1..], pc.setting)
  {
    var a := Step(w, AlertLook(tid));
    AlertLookStep(w, tid);
    AlertJudgeStep(a, tid);
    AlertEndStep(Step(a, AlertJudge(tid)), tid, draw.now);
    RunThree(w, AlertLook(tid), AlertJudge(tid), AlertEnd(tid, draw.now));
  }

  lemma AlertFireStep(w: World, tid: nat, draw: Draw)
    requires PcOf(w, tid).Alerts? && PcOf(w, tid).queue != [] && PcOf(w, tid).queue[0].firing
    ensures var v := Step(w, AlertFire(tid, draw));
            var pc := PcOf(w, tid);
            var (t, r) := FireAlert(w.store, pc.queue[0], pc.setting, draw);
            v.store == t && PcOf(v, tid) == if r.Ok? then Alerts(pc.queue[1..], pc.setting) else Idle
  {
    hide OpenIncident;
  }

  /** The transactions of one alert, back to back. */
  function AlertActions(tid: nat, c: Checked, draw: Draw): seq<Action>
  {
    if c.firing then [AlertFire(tid, draw)] else [AlertLook(tid), AlertJudge(tid), AlertEnd(tid, draw.now)]
  }

  /** One alert of a batch, firing or resolved; one that raises ends the thread's batch. */
  lemma AlertRefinesSerial(w: World, tid: nat, draw: Draw)
    requires PcOf(w, tid).Alerts? && PcOf(w, tid).queue != []
    ensures var pc := PcOf(w, tid);
            var v := Run(w, AlertActions(tid, pc.queue[0], draw));
            var (t, r) := HandleAlert(w.store, pc.queue[0], pc.setting, draw);
            v.store == t && PcOf(v, tid) == if r.Ok? then Alerts(pc.queue[1..], pc.setting) else Idle
  {
    if PcOf(w, tid).queue[0].firing {
      AlertFireStep(w, tid, draw);
      RunSnoc(w, [], AlertFire(tid, draw));
      assert [] + [AlertFire(tid, draw)] == [AlertFire(tid, draw)];
    } else {
      ResolvedRefinesSerial(w, tid, draw);
    }
  }

  function BatchActions(tid: nat, queue: seq<Checked>, draws: seq<Draw>): seq<Action>
    requires |draws| >= |queue|
    decreases |queue|
  {
    if queue == [] then []
    else
      var n := |queue| - 1;
      BatchActions(tid, queue[..n], draws) + AlertActions(tid, queue[n], draws[n])
  }

  lemma {:induction false} RunConcat(w: World, a: seq<Action>, b: seq<Action>)
    ensures Run(w, a + b) == Run(Run(w, a), b)
    decreases |b|
  {
    if b == [] {
      assert a + b == a;
    } else {
      var n := |b| - 1;
      assert (a + b)[..|a + b| - 1] == a + b[..n] && (a + b)[|a + b| - 1] == b[n];
      RunConcat(w, a, b[..n]);
    }
  }

  lemma IdleStep(w: World, a: Action)
    requires a.AlertFire? || a.AlertLook? || a.AlertJudge? || a.AlertEnd?
    requires PcOf(w, a.tid) == Idle
    ensures Step(w, a) == w
  {
    hide OpenIncident, ChangeIncident;
  }

  /** The transactions of no alert do anything to a thread whose batch has ended. */
  lemma IdleStays(w: World, tid: nat, c: Checked, draw: Draw)
    requires PcOf(w, tid) == Idle
    ensures Run(w, AlertActions(tid, c, draw)) == w
  {
    hide Step;
    if c.firing {
      RunSnoc(w, [], AlertFire(tid, draw));
      assert [] + [AlertFire(tid, draw)] == [AlertFire(tid, draw)];
      IdleStep(w, AlertFire(tid, draw));
    } else {
      RunThree(w, AlertLook(tid), AlertJudge(tid), AlertEnd(tid, draw.now));
      IdleStep(w, AlertLook(tid));
      IdleStep(w, AlertJudge(tid));
      IdleStep(w, AlertEnd(tid, draw.now));
    }
  }

  /** A batch run back to back is the serial batch, up to and including an alert that raises. */
  lemma {:induction false} BatchRefinesSerial(w: World, tid: nat, queue: seq<Checked>, k: Setting, draws: seq<Draw>,
                                              i: nat)
    requires PcOf(w, tid) == Alerts(queue, k) && i <= |queue| <= |draws|
    ensures var v := Run(w, BatchActions(tid, queue[..i], draws));
            var (t, r) := HandleAlerts(w.store, queue[..i], k, draws);
            v.store == t && PcOf(v, tid) == if r.Ok? then Alerts(queue[i..], k) else Idle
    decreases i
  {
    hide HandleAlert, Step, AlertActions;
    if i > 0 {
      var n := i - 1;
      assert queue[..i][..n] == queue[..n] && queue[..i][n] == queue[n];
      var before := BatchActions(tid, queue[..n], draws);
      var mid := Run(w, before);
      BatchRefinesSerial(w, tid, queue, k, draws, n);
      RunConcat(w, before, AlertActions(tid, queue[n], draws[n]));
      if HandleAlerts(w.store, queue[..n], k, draws).1.Ok? {
        assert queue[n..][0] == queue[n] && queue[n..][1..] == queue[i..];
        AlertRefinesSerial(mid, tid, draws[n]);
      } else {
        IdleStays(mid, tid, queue[n], draws[n]);
      }
    }
  }

  lemma ReachableIsSound(run: seq<Action>)
    ensures Inv(Run(START, run).store)
  {
    RunSafe(START, run, "");
  }
}
