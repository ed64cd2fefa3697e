/**
 What becomes of the serial promises about the collector and the Alertmanager when their transactions
 interleave: which break, exactly when, and which hold as long as polls of one router do not overlap.
 */
module IncidentRaces {
  import opened Wrappers
  import opened Incidents
  import opened Operations
  import opened IncidentRuns

  // ---------- no incident after a poll that answered, none closed while polls fail ----------

  /** What the change of a lookup's answer does to the active incident of a key. */
  lemma ClosingIff(s: Store, key: string, active: Option<Uuid>, message: string, actor: string, now: real)
    requires Inv(s) && |message| <= 2000 && active.Some?
    ensures ActiveId(ChangeIncident(s, ResolveChange(active.value, message), actor, now).0, key).None?
       <==> ActiveId(s, key).None? || ActiveId(s, key) == active
  {
    hide Strip;
    var id := active.value;
    UuidIsPlain(id);
    var i := ById(s.incidents, id);
    if ActiveId(s, key) == active {
      ResolveClears(s, key, message, actor, now);
    } else if i.Some? && IsActive(s.incidents[i.value]) {
      OnlyActive(s, i.value);
      ResolveElsewhere(s, s.incidents[i.value].key, message, actor, now, key);
    }
  }

  /** An active incident is the one a lookup of its key finds. */
  lemma OnlyActive(s: Store, i: nat)
    requires Inv(s) && i < |s.incidents| && IsActive(s.incidents[i])
    ensures ActiveId(s, s.incidents[i].key) == Some(s.incidents[i].id)
  {
    var found := ActiveByKey(s.incidents, s.incidents[i].key);
    assert found.Some? && found.value == i;
  }

  /**
   Exactly when a poll that answered ends without an active incident of its router, in every
   reachable world: none is active, or the active one is the one its lookup found.
   */
  lemma SuccessClearsIff(run: seq<Action>, tid: nat, draw: Draw)
    requires PcOf(Run(START, run), tid).PollLooked?
    ensures var w := Run(START, run);
            var pc := PcOf(w, tid);
            var key := RouterKey(pc.poll.router);
            ActiveId(Run(START, run + [PollEnd(tid, draw)]).store, key).None?
            <==> ActiveId(w.store, key).None? || ActiveId(w.store, key) == pc.active
  {
    hide ChangeIncident, OpenIncident, ActiveId, Inv;
    var w := Run(START, run);
    var pc := PcOf(w, tid);
    ReachableIsSound(run);
    RunSnoc(START, run, PollEnd(tid, draw));
    PollEndStep(w, tid, draw);
    if pc.active.Some? {
      ClosingIff(w.store, RouterKey(pc.poll.router), pc.active, "Связь восстановлена", "collector", draw.now);
    }
  }

  /**
   Exactly when the end of a resolved alert leaves the active incident of its key open, in every
   reachable world: a failing streak was read, or the active incident is not the one its lookup found.
   */
  lemma AlertKeepsOpenIff(run: seq<Action>, tid: nat, now: real)
    requires PcOf(Run(START, run), tid).AlertJudged? && PcOf(Run(START, run), tid).queue != []
    requires var w := Run(START, run);
             var pc := PcOf(w, tid);
             ActiveId(w.store, AlertKey(pc.queue[0], pc.setting)).Some?
    ensures var w := Run(START, run);
            var pc := PcOf(w, tid);
            var key := AlertKey(pc.queue[0], pc.setting);
            ActiveId(Run(START, run + [AlertEnd(tid, now)]).store, key).Some?
            <==> pc.failing || pc.active != ActiveId(w.store, key)
  {
    hide ChangeIncident, OpenIncident, ActiveId, Inv;
    var w := Run(START, run);
    var pc := PcOf(w, tid);
    ReachableIsSound(run);
    RunSnoc(START, run, AlertEnd(tid, now));
    AlertEndStep(w, tid, now);
    if pc.active.Some? {
      ClosingIff(w.store, AlertKey(pc.queue[0], pc.setting), pc.active, "Alertmanager: восстановление",
                 "alertmanager", now);
    }
  }

  /**
   Alertmanager opens between the lookup and the end of a poll that answered: the poll ends
   with an active incident and no failures on record.
   */
  lemma ActiveAfterSuccess(w: World, tid: nat, poll: Poll, now: real, args: OpenArgs, draw: Draw, end: Draw)
    requires PcOf(w, tid) == Idle && poll.ok && ActiveId(w.store, RouterKey(poll.router)).None?
    requires ValidOpen(args) && args.key == RouterKey(poll.router) && ById(w.store.incidents, draw.id).None?
    ensures var u := Step(Step(w, PollHealth(tid, poll, now)), PollLook(tid));
            var v := Step(Step(u, Open_(args, draw)), PollEnd(tid, end));
            PcOf(v, tid) == Idle && FailuresOf(v.store, DeviceOf(poll.router)) == 0
            && ActiveId(v.store, RouterKey(poll.router)).Some?
  {
    var u := Step(Step(w, PollHealth(tid, poll, now)), PollLook(tid));
    assert u.store.incidents == w.store.incidents;
    OpenCreatesIff(u.store, args, draw);
    OpenReturns(u.store, args, draw);
    CreatedIsActive(u.store, args, draw);
    OpenFrame(u.store, args, draw);
  }

  /**
   A poll fails between Alertmanager's reading of the health row and its change: the incident of
   a router with a positive streak is closed.
   */
  lemma ClosedWhileFailing(w: World, alert: nat, collector: nat, poll: Poll, now: real, later: real)
    requires Sound(w) && alert != collector && PcOf(w, collector) == Idle && !poll.ok
    requires PcOf(w, alert).Alerts? && PcOf(w, alert).queue != []
    requires var c := PcOf(w, alert).queue[0];
             var k := PcOf(w, alert).setting;
             !c.firing && Shared(c, k) && c.labels.router == poll.router
    requires FailuresOf(w.store, DeviceOf(poll.router)) == 0 && ActiveId(w.store, RouterKey(poll.router)).Some?
    ensures var u := Step(Step(Step(w, AlertLook(alert)), AlertJudge(alert)), PollHealth(collector, poll, now));
            var v := Step(u, AlertEnd(alert, later));
            FailuresOf(v.store, DeviceOf(poll.router)) == 1 && ActiveId(v.store, RouterKey(poll.router)).None?
  {
    var key := RouterKey(poll.router);
    var a := Step(w, AlertLook(alert));
    var b := Step(a, AlertJudge(alert));
    var u := Step(b, PollHealth(collector, poll, now));
    AlertLookStep(w, alert);
    AlertJudgeStep(a, alert);
    PollHealthStep(b, collector, poll, now);
    AlertEndStep(u, alert, later);
    RacingClose(w.store, poll, now, later);
  }

  lemma RacingClose(s: Store, poll: Poll, now: real, later: real)
    requires Inv(s) && !poll.ok && ActiveId(s, RouterKey(poll.router)).Some?
    ensures var t := SettleAlert(RecordHealth(s, poll, now), ActiveId(s, RouterKey(poll.router)), false, later).0;
            FailuresOf(t, DeviceOf(poll.router)) == FailuresOf(s, DeviceOf(poll.router)) + 1
            && ActiveId(t, RouterKey(poll.router)).None?
  {
    var h := RecordHealth(s, poll, now);
    var key := RouterKey(poll.router);
    HealthKeepsInv(s, poll, now);
    ResolveClears(h, key, "Alertmanager: восстановление", "alertmanager", later);
    ChangeFrame(h, ResolveChange(ActiveId(h, key).value, "Alertmanager: восстановление"), "alertmanager", later);
  }

  // ---------- creation, and the maintenance window ----------

  /** A world with one more incident. */
  predicate Creates(w: World, v: World) { |v.store.incidents| > |w.store.incidents| }

  predicate MayOpen(s: Store, args: OpenArgs, draw: Draw)
  {
    ActiveId(s, KeyOf(args, draw)).None? && ValidOpen(args) && ById(s.incidents, draw.id).None?
  }

  lemma OpeningIff(s: Store, args: OpenArgs, draw: Draw)
    ensures |OpenIncident(s, args, draw).0.incidents| > |s.incidents| <==> MayOpen(s, args, draw)
  {
    hide OpenIncident;
    OpenCreatesIff(s, args, draw);
    OpenFrame(s, args, draw);
  }

  /**
   Exactly when the end of a failed poll creates an incident, in every reachable world: the window and
   the streak are those read with its health transaction, and only the rest is looked at again.
   */
  lemma PollCreatesIff(run: seq<Action>, tid: nat, draw: Draw)
    requires PcOf(Run(START, run), tid).Polled? && !PcOf(Run(START, run), tid).poll.ok
    ensures var w := Run(START, run);
            var pc := PcOf(w, tid);
            Creates(w, Run(START, run + [PollEnd(tid, draw)]))
            <==> !pc.inWindow && pc.failures >= 2 && MayOpen(w.store, UnreachableArgs(pc.poll), draw)
  {
    hide OpenIncident, MayOpen;
    var w := Run(START, run);
    RunSnoc(START, run, PollEnd(tid, draw));
    PollEndStep(w, tid, draw);
    OpeningIff(w.store, UnreachableArgs(PcOf(w, tid).poll), draw);
  }

  /** Exactly when a firing alert creates one: the windows are those read before the batch. */
  lemma AlertCreatesIff(run: seq<Action>, tid: nat, draw: Draw)
    requires PcOf(Run(START, run), tid).Alerts? && PcOf(Run(START, run), tid).queue != []
    requires PcOf(Run(START, run), tid).queue[0].firing
    ensures var w := Run(START, run);
            var pc := PcOf(w, tid);
            var (c, k) := (pc.queue[0], pc.setting);
            Creates(w, Run(START, run + [AlertFire(tid, draw)]))
            <==> !InMaintenance(k.windows, AlertDevice(c, k), draw.now)
                 && MayOpen(w.store, FireArgs(c, k), draw)
  {
    hide OpenIncident, MayOpen;
    var w := Run(START, run);
    var pc := PcOf(w, tid);
    RunSnoc(START, run, AlertFire(tid, draw));
    AlertFireStep(w, tid, draw);
    OpeningIff(w.store, FireArgs(pc.queue[0], pc.setting), draw);
  }

  function FireArgs(c: Checked, k: Setting): OpenArgs
  {
    OpenArgs(AlertDevice(c, k), c.title, "critical", AlertKey(c, k), "alertmanager")
  }

  /** The window of a device, if it has one. */
  function WindowOf(s: Store, device: string): Option<real>
  {
    if device in s.maintenance then Some(s.maintenance[device]) else None
  }

  predicate SavesWindow(a: Action, device: string) { a.Maintain? && a.device == device }

  lemma CommitKeepsWindow(w: World, tx: Tx, device: string)
    requires !(tx.Windowing? && tx.device == device)
    ensures WindowOf(Commit(w, tx).0.store, device) == WindowOf(w.store, device)
  {
    hide OpenIncident, ChangeIncident, ResolvedKey;
    match tx
    case Opening(args, draw) => OpenFrame(w.store, args, draw);
    case Changing(body, actor, now) => ChangeFrame(w.store, body, actor, now);
    case _ =>
  }

  /** Which transaction an action may run. */
  lemma TxOf(w: World, a: Action)
    ensures PlanOf(w, a).tx.Windowing? <==> a.Maintain?
    ensures a.Maintain? ==> PlanOf(w, a).tx == Windowing(a.device, a.until, a.now)
    ensures PlanOf(w, a).tx.Polling? ==> a.PollHealth? && PlanOf(w, a).tx == Polling(a.poll, a.now)
  {
  }

  /** A window changes only when the operator saves one. */
  lemma {:induction false} WindowStays(w: World, mid: seq<Action>, device: string)
    requires forall a <- mid :: !SavesWindow(a, device)
    ensures WindowOf(Run(w, mid).store, device) == WindowOf(w.store, device)
    decreases |mid|
  {
    hide WindowOf, Commit, PlanOf;
    if mid != [] {
      var init, a := mid[..|mid| - 1], mid[|mid| - 1];
      WindowStays(w, init, device);
      assert a in mid;
      TxOf(Run(w, init), a);
      CommitKeepsWindow(Run(w, init), PlanOf(Run(w, init), a).tx, device);
    }
  }

  /**
   A failed poll creates inside a window then in force only when that window was saved since its health
   transaction, or the clock has stepped back since.
   */
  lemma InsideWindowMeans(run: seq<Action>, tid: nat, poll: Poll, now: real, mid: seq<Action>, draw: Draw)
    requires PcOf(Run(START, run), tid) == Idle && !poll.ok
    requires var w1 := Run(START, run + [PollHealth(tid, poll, now)]);
             PcOf(Run(w1, mid), tid) == PcOf(w1, tid)
    ensures var w2 := Run(Run(START, run + [PollHealth(tid, poll, now)]), mid);
            Creates(w2, Step(w2, PollEnd(tid, draw)))
            && InMaintenance(w2.store.maintenance, DeviceOf(poll.router), draw.now)
            ==> draw.now < now || exists a <- mid :: SavesWindow(a, DeviceOf(poll.router))
  {
    var w := Run(START, run);
    var device := DeviceOf(poll.router);
    RunSnoc(START, run, PollHealth(tid, poll, now));
    PollHealthStep(w, tid, poll, now);
    var w1 := Step(w, PollHealth(tid, poll, now));
    PollEndStep(Run(w1, mid), tid, draw);
    hide Step, OpenIncident;
    if forall a <- mid :: !SavesWindow(a, device) { WindowStays(w1, mid, device); }
  }

  /** A firing alert creates inside a window then in force only when that window is not the one its batch read. */
  lemma AlertInsideWindowMeans(run: seq<Action>, tid: nat, draw: Draw)
    requires PcOf(Run(START, run), tid).Alerts? && PcOf(Run(START, run), tid).queue != []
    requires PcOf(Run(START, run), tid).queue[0].firing
    ensures var w := Run(START, run);
            var pc := PcOf(w, tid);
            var device := AlertDevice(pc.queue[0], pc.setting);
            Creates(w, Run(START, run + [AlertFire(tid, draw)]))
            && InMaintenance(w.store.maintenance, device, draw.now)
            ==> !(device in pc.setting.windows && pc.setting.windows[device] == w.store.maintenance[device])
  {
    hide MayOpen;
    AlertCreatesIff(run, tid, draw);
  }

  /** What a thread inside a batch has read at its beginning. */
  function SettingOf(pc: Pc): Option<Setting>
  {
    match pc
    case Alerts(_, k) => Some(k)
    case AlertLooked(_, k, _) => Some(k)
    case AlertJudged(_, k, _, _) => Some(k)
    case _ => None
  }

  predicate BeginsBatch(a: Action, tid: nat) { a.AlertsBegin? && a.tid == tid }

  lemma StepKeepsSetting(w: World, a: Action, tid: nat)
    requires !BeginsBatch(a, tid)
    ensures SettingOf(PcOf(Step(w, a), tid)).Some? ==> SettingOf(PcOf(Step(w, a), tid)) == SettingOf(PcOf(w, tid))
  {
    hide OpenIncident, ChangeIncident, ResolvedKey, ActiveId;
  }

  /** A batch goes on with what it has read at its beginning. */
  lemma {:induction false} SettingStays(w: World, mid: seq<Action>, tid: nat)
    requires forall a <- mid :: !BeginsBatch(a, tid)
    ensures var k := SettingOf(PcOf(Run(w, mid), tid)); k.Some? ==> k == SettingOf(PcOf(w, tid))
    decreases |mid|
  {
    hide Step, SettingOf, PcOf;
    if mid != [] {
      var init, a := mid[..|mid| - 1], mid[|mid| - 1];
      SettingStays(w, init, tid);
      assert a in mid;
      StepKeepsSetting(Run(w, init), a, tid);
    }
  }

  /** A firing alert creates inside a window then in force only when that window was saved since its batch began. */
  lemma LateWindowMeans(run: seq<Action>, tid: nat, queue: seq<Checked>, routers: set<string>, digest: Labels -> string,
                        mid: seq<Action>, draw: Draw)
    requires PcOf(Run(START, run), tid) == Idle && forall a <- mid :: !BeginsBatch(a, tid)
    requires var pc := PcOf(Run(Run(START, run + [AlertsBegin(tid, queue, routers, digest)]), mid), tid);
             pc.Alerts? && pc.queue != [] && pc.queue[0].firing
    ensures var w2 := Run(Run(START, run + [AlertsBegin(tid, queue, routers, digest)]), mid);
            var pc := PcOf(w2, tid);
            var device := AlertDevice(pc.queue[0], pc.setting);
            Creates(w2, Step(w2, AlertFire(tid, draw))) && InMaintenance(w2.store.maintenance, device, draw.now)
            ==> exists a <- mid :: SavesWindow(a, device)
  {
    var w := Run(START, run);
    var begin := AlertsBegin(tid, queue, routers, digest);
    RunSnoc(START, run, begin);
    var w1 := Step(w, begin);
    assert w1.store == w.store && SettingOf(PcOf(w1, tid)) == Some(Setting(w.store.maintenance, routers, digest));
    hide Step, OpenIncident, MayOpen;
    SettingStays(w1, mid, tid);
    var w2 := Run(w1, mid);
    AlertFireStep(w2, tid, draw);
    var device := AlertDevice(PcOf(w2, tid).queue[0], PcOf(w2, tid).setting);
    if forall a <- mid :: !SavesWindow(a, device) { WindowStays(w1, mid, device); }
  }

  // ---------- a poll that answered and raises ----------

  /** Whether the call an action makes raises. */
  predicate Raises(w: World, a: Action) { !Commit(w, PlanOf(w, a).tx).1 }

  function StatusOf(s: Store, id: string): Option<Status>
  {
    match ById(s.incidents, id)
    case Some(i) => Some(s.incidents[i].status)
    case None => None
  }

  /** The incident a thread has looked up. */
  function Looked(pc: Pc): Option<Uuid>
  {
    match pc
    case PollLooked(_, active) => active
    case AlertLooked(_, _, active) => active
    case AlertJudged(_, _, active, _) => active
    case _ => None
  }

  ghost predicate LookedExist(w: World)
  {
    forall tid <- w.pcs :: Looked(w.pcs[tid]).Some? ==> ById(w.store.incidents, Looked(w.pcs[tid]).value).Some?
  }

  lemma ActiveExists(s: Store, key: string)
    requires ActiveId(s, key).Some?
    ensures ById(s.incidents, ActiveId(s, key).value).Some?
  {
  }

  /** A step leaves a thread what it had looked up, lets it forget it, or lets it look. */
  lemma LookedAfter(w: World, a: Action, tid: nat)
    requires tid in Step(w, a).pcs && Looked(Step(w, a).pcs[tid]).Some?
    ensures var now := Looked(Step(w, a).pcs[tid]);
            (tid in w.pcs && now == Looked(w.pcs[tid]))
            || ((a.PollLook? || a.AlertLook?) && exists key :: now == ActiveId(w.store, key))
  {
    hide OpenIncident, ChangeIncident, ResolvedKey, ActiveId;
  }

  /** What a thread has looked up is there for ever. */
  lemma {:induction false} LookedStay(run: seq<Action>)
    ensures LookedExist(Run(START, run))
    decreases |run|
  {
    if run != [] {
      var init, a := run[..|run| - 1], run[|run| - 1];
      var w := Run(START, init);
      LookedStay(init);
      LastExtends(run);
      hide Step, Looked, ActiveId, ById;
      forall tid | tid in Step(w, a).pcs && Looked(Step(w, a).pcs[tid]).Some?
        ensures ById(Step(w, a).store.incidents, Looked(Step(w, a).pcs[tid]).value).Some?
      {
        LookedAfter(w, a, tid);
        var id := Looked(Step(w, a).pcs[tid]).value;
        if !(tid in w.pcs && Looked(w.pcs[tid]) == Some(id)) {
          var key :| Some(id) == ActiveId(w.store, key);
          ActiveExists(w.store, key);
        }
        IdStays(w.store.incidents, Step(w, a).store.incidents, id);
      }
    }
  }

  lemma ResolveOkIff(s: Store, id: Uuid, message: string, actor: string, now: real)
    requires |message| <= 2000
    ensures ChangeIncident(s, ResolveChange(id, message), actor, now).1.Ok?
       <==> StatusOf(s, id).Some? && StatusOf(s, id) != Some(Resolved)
  {
    UuidIsPlain(id);
  }

  /** Exactly when the end of a poll that answered raises: the incident its lookup found has been resolved since. */
  lemma AnsweredPollRaisesIff(run: seq<Action>, tid: nat, draw: Draw)
    requires PcOf(Run(START, run), tid).PollLooked?
    ensures var w := Run(START, run);
            var active := PcOf(w, tid).active;
            Raises(w, PollEnd(tid, draw)) <==> active.Some? && StatusOf(w.store, active.value) == Some(Resolved)
  {
    var w := Run(START, run);
    LookedStay(run);
    hide ChangeIncident, OpenIncident, ById, ResolvedKey;
    var active := PcOf(w, tid).active;
    if active.Some? {
      assert tid in w.pcs && Looked(w.pcs[tid]) == active;
      ResolveOkIff(w.store, active.value, "Связь восстановлена", "collector", draw.now);
    }
  }

  // ---------- what holds as long as polls of one router do not overlap ----------

  predicate PollsRouter(a: Action, router: string) { a.PollHealth? && DeviceOf(a.poll.router) == DeviceOf(router) }

  lemma CommitKeepsFailures(w: World, tx: Tx, router: string)
    requires !(tx.Polling? && DeviceOf(tx.poll.router) == DeviceOf(router))
    ensures FailuresOf(Commit(w, tx).0.store, DeviceOf(router)) == FailuresOf(w.store, DeviceOf(router))
  {
    hide OpenIncident, ChangeIncident, ResolvedKey;
    match tx
    case Opening(args, draw) => OpenFrame(w.store, args, draw);
    case Changing(body, actor, now) => ChangeFrame(w.store, body, actor, now);
    case _ =>
  }

  lemma {:induction false} FailuresStay(w: World, mid: seq<Action>, router: string)
    requires forall a <- mid :: !PollsRouter(a, router)
    ensures FailuresOf(Run(w, mid).store, DeviceOf(router)) == FailuresOf(w.store, DeviceOf(router))
    decreases |mid|
  {
    hide FailuresOf, Commit, PlanOf;
    if mid != [] {
      var init, a := mid[..|mid| - 1], mid[|mid| - 1];
      FailuresStay(w, init, router);
      assert a in mid;
      TxOf(Run(w, init), a);
      CommitKeepsFailures(Run(w, init), PlanOf(Run(w, init), a).tx, router);
    }
  }

  /**
   As the lock of `poll` has it, no other poll of the router comes between: the failures on record at
   the end are those the poll has counted, none after one that answered, two or more when it creates.
   */
  lemma StreakHolds(run: seq<Action>, tid: nat, poll: Poll, now: real, mid: seq<Action>, draw: Draw)
    requires PcOf(Run(START, run), tid) == Idle && forall a <- mid :: !PollsRouter(a, poll.router)
    ensures var w := Run(START, run);
            var w1 := Step(w, PollHealth(tid, poll, now));
            var w2 := Run(w1, mid);
            var v := Step(w2, PollEnd(tid, draw));
            var device := DeviceOf(poll.router);
            && FailuresOf(v.store, device) == (if poll.ok then 0 else FailuresOf(w.store, device) + 1)
            && (PcOf(w2, tid) == PcOf(w1, tid) && !poll.ok && Creates(w2, v) ==> FailuresOf(v.store, device) >= 2)
  {
    var w := Run(START, run);
    PollHealthStep(w, tid, poll, now);
    var w1 := Step(w, PollHealth(tid, poll, now));
    var w2 := Run(w1, mid);
    FailuresStay(w1, mid, poll.router);
    TxOf(w2, PollEnd(tid, draw));
    CommitKeepsFailures(w2, PlanOf(w2, PollEnd(tid, draw)).tx, poll.router);
    if PcOf(w2, tid) == PcOf(w1, tid) && !poll.ok { PollEndStep(w2, tid, draw); }
  }

  // ---------- these failures happen, from the empty store ----------

  const ROUTER := "r1"
  const UP := Poll("r1", "edge", true)
  const DOWN := Poll("r1", "edge", false)
  const RAISED := OpenArgs("router:r1", "down", "critical", "router-unreachable:r1", "alertmanager")
  const DRAWN := Draw(ZERO_UUID, ZERO_UUID, 1.0)
  const SETTLED := Checked(false, Labels("MikroTikUnreachable", "", "", "r1"), "down")

  function Constant(l: Labels): string { "digest" }

  /** The incident of RAISED opens in any world without one of its key and id. */
  lemma RaisedOpens(w: World)
    requires ActiveId(w.store, RouterKey(ROUTER)).None? && ById(w.store.incidents, ZERO_UUID).None?
    ensures var v := Step(w, Open_(RAISED, DRAWN));
            ActiveId(v.store, RouterKey(ROUTER)) == Some(ZERO_UUID) && v.pcs == w.pcs
                && v.store.health == w.store.health
  {
    assert ValidOpen(RAISED) by { assert Strip("down") == "down"; }
    assert RouterKey(ROUTER) == RAISED.key;
    hide OpenIncident, Strip;
    OpenCreatesIff(w.store, RAISED, DRAWN);
    OpenReturns(w.store, RAISED, DRAWN);
    CreatedIsActive(w.store, RAISED, DRAWN);
    OpenFrame(w.store, RAISED, DRAWN);
  }

  /** A poll that answered, and the incident opened between its lookup and its end is still active. */
  lemma ActiveAfterSuccessHappens()
    ensures var end := Run(START, [PollHealth(0, UP, 1.0), PollLook(0), Open_(RAISED, DRAWN), PollEnd(0, DRAWN)]);
            ActiveId(end.store, RouterKey(ROUTER)).Some? && FailuresOf(end.store, DeviceOf(ROUTER)) == 0
            && PcOf(end, 0) == Idle
  {
    var a, b, c, d := PollHealth(0, UP, 1.0), PollLook(0), Open_(RAISED, DRAWN), PollEnd(0, DRAWN);
    RunThree(START, a, b, c);
    RunSnoc(START, [a, b, c], d);
    assert [a, b, c] + [d] == [a, b, c, d];
    PollHealthStep(START, 0, UP, 1.0);
    PollLookStep(Step(START, a), 0);
    var looked := Step(Step(START, a), b);
    assert looked.store.incidents == [];
    RaisedOpens(looked);
    PollEndStep(Step(looked, c), 0, DRAWN);
  }

  function RaceStart(): seq<Action> { [Open_(RAISED, DRAWN), AlertsBegin(0, [SETTLED], {ROUTER}, Constant)] }

  function RaceEnd(): seq<Action> { [AlertLook(0), AlertJudge(0), PollHealth(1, DOWN, 2.0), AlertEnd(0, 3.0)] }

  lemma RaceStarts()
    ensures var w := Run(START, RaceStart());
            Sound(w) && PcOf(w, 1) == Idle && PcOf(w, 0) == Alerts([SETTLED], Setting(map[], {ROUTER}, Constant))
            && FailuresOf(w.store, DeviceOf(ROUTER)) == 0 && ActiveId(w.store, RouterKey(ROUTER)).Some?
  {
    ReachableIsSound(RaceStart());
    hide Inv;
    var a, b := RaceStart()[0], RaceStart()[1];
    RaisedOpens(START);
    OpenFrame(START.store, RAISED, DRAWN);
    RunSnoc(START, [], a);
    RunSnoc(START, [a], b);
    assert [] + [a] == [a] && [a] + [b] == RaceStart();
    hide OpenIncident;
    var w := Step(START, a);
    assert w.store.maintenance == map[];
    assert Step(w, b).store == w.store && PcOf(w, 0) == Idle && PcOf(w, 1) == Idle;
  }

  lemma RaceEnds(w: World)
    ensures Run(w, RaceEnd())
         == Step(Step(Step(Step(w, RaceEnd()[0]), RaceEnd()[1]), RaceEnd()[2]), RaceEnd()[3])
  {
    hide Step;
    var r := RaceEnd();
    RunThree(w, r[0], r[1], r[2]);
    RunSnoc(w, [r[0], r[1], r[2]], r[3]);
    assert [r[0], r[1], r[2]] + [r[3]] == r;
  }

  /** A poll fails between the reading of the health row and the change, and the incident is closed. */
  lemma ClosedWhileFailingHappens()
    ensures var end := Run(START, RaceStart() + RaceEnd());
            ActiveId(end.store, RouterKey(ROUTER)).None? && FailuresOf(end.store, DeviceOf(ROUTER)) == 1
  {
    hide Step, Inv, ActiveId, FailuresOf;
    var w := Run(START, RaceStart());
    RaceStarts();
    assert Shared(SETTLED, PcOf(w, 0).setting);
    ClosedWhileFailing(w, 0, 1, DOWN, 2.0, 3.0);
    RaceEnds(w);
    RunConcat(START, RaceStart(), RaceEnd());
  }

  lemma RunTwo(w: World, a: Action, b: Action)
    ensures Run(w, [a, b]) == Step(Step(w, a), b)
  {
    RunSnoc(w, [], a);
    RunSnoc(w, [a], b);
    assert [] + [a] == [a] && [a] + [b] == [a, b];
  }

  /** The arguments of the collector for DOWN can be opened. */
  lemma DownOpens()
    ensures ValidOpen(UnreachableArgs(DOWN)) && KeyOf(UnreachableArgs(DOWN), DRAWN) == RouterKey(ROUTER)
  {
    var title := "Нет связи: " + "edge";
    assert Strip(title) == title;
    assert |title| <= 300 && title != "";
  }

  function WindowRun(): seq<Action>
  {
    [PollHealth(0, DOWN, 1.0), PollEnd(0, DRAWN), PollHealth(0, DOWN, 2.0), Maintain("router:r1", 100.0, 2.5)]
  }

  lemma RunFour(w: World, a: Action, b: Action, c: Action, d: Action)
    ensures Run(w, [a, b, c, d]) == Step(Step(Step(Step(w, a), b), c), d)
  {
    hide Step;
    RunThree(w, a, b, c);
    RunSnoc(w, [a, b, c], d);
    assert [a, b, c] + [d] == [a, b, c, d];
  }

  lemma NoneThere(s: Store, args: OpenArgs, draw: Draw)
    requires s.incidents == [] && ValidOpen(args)
    ensures MayOpen(s, args, draw)
  {
  }

  lemma RouterDevice()
    ensures DeviceOf(ROUTER) == "router:r1"
  {
  }

  /** The operator opens a window between the health transaction of a second failed poll and its end. */
  lemma CollectorInsideWindowHappens()
    ensures var w := Run(START, WindowRun());
            Creates(w, Run(START, WindowRun() + [PollEnd(0, DRAWN.(now := 3.0))]))
            && InMaintenance(w.store.maintenance, DeviceOf(ROUTER), 3.0)
  {
    hide Run, Step, OpenIncident, ValidOpen, MayOpen, Creates, DeviceOf;
    var r := WindowRun();
    RunFour(START, r[0], r[1], r[2], r[3]);
    assert [r[0], r[1], r[2], r[3]] == r;
    SecondPoll(r);
    DownOpens();
    RouterDevice();
    NoneThere(Run(START, r).store, UnreachableArgs(DOWN), DRAWN.(now := 3.0));
    PollCreatesIff(r, 0, DRAWN.(now := 3.0));
  }

  /** Where that run stands before the end of the second poll. */
  lemma SecondPoll(r: seq<Action>)
    requires r == WindowRun()
    ensures var w := Step(Step(Step(Step(START, r[0]), r[1]), r[2]), r[3]);
            PcOf(w, 0) == Polled(DOWN, 2, false) && w.store.incidents == []
            && w.store.maintenance == map["router:r1" := 100.0]
  {
    PollHealthStep(START, 0, DOWN, 1.0);
    var w1 := Step(START, r[0]);
    PollEndStep(w1, 0, DRAWN);
    var w2 := Step(w1, r[1]);
    assert w2.store == w1.store && PcOf(w2, 0) == Idle;
    PollHealthStep(w2, 0, DOWN, 2.0);
    hide OpenIncident, ChangeIncident;
    var w3 := Step(w2, r[2]);
    assert Step(w3, r[3]).pcs == w3.pcs;
  }

  const FIRING := Checked(true, Labels("MikroTikUnreachable", "", "", "r1"), "down")

  function LateWindowRun(): seq<Action>
  {
    [AlertsBegin(0, [FIRING], {ROUTER}, Constant), Maintain("router:r1", 100.0, 1.0)]
  }

  /** The operator opens a window after a batch has read the windows. */
  lemma AlertInsideWindowHappens()
    ensures var w := Run(START, LateWindowRun());
            Creates(w, Run(START, LateWindowRun() + [AlertFire(0, DRAWN.(now := 3.0))]))
            && InMaintenance(w.store.maintenance, DeviceOf(ROUTER), 3.0)
  {
    var r := LateWindowRun();
    var k := Setting(map[], {ROUTER}, Constant);
    RunTwo(START, r[0], r[1]);
    var w := Step(Step(START, r[0]), r[1]);
    assert PcOf(w, 0) == Alerts([FIRING], k) && w.store.incidents == [];
    assert w.store.maintenance == map["router:r1" := 100.0];
    assert ValidOpen(FireArgs(FIRING, k)) by { assert Strip("down") == "down"; }
    hide Run, Step, OpenIncident, ValidOpen, MayOpen, Creates, DeviceOf;
    assert [r[0], r[1]] == r;
    RouterDevice();
    NoneThere(w.store, FireArgs(FIRING, k), DRAWN.(now := 3.0));
    AlertCreatesIff(r, 0, DRAWN.(now := 3.0));
  }

  function ResolvedRun(): seq<Action>
  {
    [Open_(RAISED, DRAWN), PollHealth(0, UP, 1.0), PollLook(0),
     Change_(ResolveChange(ZERO_UUID, "done"), "operator", 2.0)]
  }

  /** The operator resolves the incident between the lookup of a poll that answered and its end. */
  lemma AnsweredPollRaisesHappens()
    ensures PcOf(Run(START, ResolvedRun()), 0).PollLooked? && Raises(Run(START, ResolvedRun()), PollEnd(0, DRAWN))
  {
    hide Run, Step, ChangeIncident, Raises, StatusOf;
    var r := ResolvedRun();
    RunFour(START, r[0], r[1], r[2], r[3]);
    assert [r[0], r[1], r[2], r[3]] == r;
    LookedUp(r);
    AnsweredPollRaisesIff(r, 0, DRAWN);
  }

  lemma LookedUp(r: seq<Action>)
    requires r == ResolvedRun()
    ensures var w := Step(Step(Step(Step(START, r[0]), r[1]), r[2]), r[3]);
            PcOf(w, 0) == PollLooked(UP, Some(ZERO_UUID)) && StatusOf(w.store, ZERO_UUID) == Some(Resolved)
  {
    hide OpenIncident, Inv, StatusOf;
    RaisedOpens(START);
    ReachableIsSound([r[0]]);
    RunSnoc(START, [], r[0]);
    assert [] + [r[0]] == [r[0]];
    var w1 := Step(START, r[0]);
    assert PcOf(w1, 0) == Idle;
    LookedFrom(w1, r);
  }

  lemma LookedFrom(w: World, r: seq<Action>)
    requires r == ResolvedRun() && Sound(w) && PcOf(w, 0) == Idle
    requires ActiveId(w.store, RouterKey(ROUTER)) == Some(ZERO_UUID)
    ensures var v := Step(Step(Step(w, r[1]), r[2]), r[3]);
            PcOf(v, 0) == PollLooked(UP, Some(ZERO_UUID)) && StatusOf(v.store, ZERO_UUID) == Some(Resolved)
  {
    hide Inv, StatusOf, ChangeIncident, ResolvedKey;
    PollHealthStep(w, 0, UP, 1.0);
    HealthKeepsInv(w.store, UP, 1.0);
    var w2 := Step(w, r[1]);
    assert ActiveId(w2.store, RouterKey(ROUTER)) == Some(ZERO_UUID);
    PollLookStep(w2, 0);
    ResolvedNow(w2.store);
    var w3 := Step(w2, r[2]);
    assert Step(w3, r[3]).pcs == w3.pcs;
  }

  /** Resolving the active incident of the router leaves its row resolved. */
  lemma ResolvedNow(s: Store)
    requires Inv(s) && ActiveId(s, RouterKey(ROUTER)) == Some(ZERO_UUID)
    ensures StatusOf(ChangeIncident(s, ResolveChange(ZERO_UUID, "done"), "operator", 2.0).0, ZERO_UUID)
         == Some(Resolved)
  {
    ResolveRow(s, RouterKey(ROUTER), "done", "operator", 2.0);
    ChangeKeepsInv(s, ResolveChange(ZERO_UUID, "done"), "operator", 2.0);
    hide ChangeIncident, ActiveByKey, ById, Stamped, UniqueIds, UniqueActiveKeys, Replays, NoOrphans;
    var i := ActiveByKey(s.incidents, RouterKey(ROUTER)).value;
    var t := ChangeIncident(s, ResolveChange(ZERO_UUID, "done"), "operator", 2.0).0;
    assert t.incidents[i].id == ZERO_UUID && t.incidents[i].status == Resolved;
    ByIdFinds(t.incidents, i);
  }
}
