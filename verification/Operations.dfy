/**
 The collector's observe_router and the Alertmanager's receive_alerts run one after
 another, and the Operations object whose methods perform them.
 */
module Operations {
  import opened Wrappers
  import opened Incidents

  // ---------- observe_router ----------

  datatype Observed = Nothing | NowOpen | NowResolved

  function RouterKey(router: string): string { "router-unreachable:" + router }

  function ActiveId(s: Store, key: string): Option<Uuid>
  {
    match ActiveByKey(s.incidents, key)
    case Some(i) => Some(s.incidents[i].id)
    case None => None
  }

  function UnreachableArgs(poll: Poll): OpenArgs
  {
    OpenArgs(DeviceOf(poll.router), "Нет связи: " + poll.name, "critical", RouterKey(poll.router), "system")
  }

  function ResolveChange(id: string, message: string): Change { Change(id, "resolve", message, "") }

  /** The last step of a poll that answered: close what the lookup found. */
  function CloseFound(s: Store, active: Option<Uuid>, now: real): (Store, Result<Observed, Error>)
  {
    match active
    case None => (s, Ok(Nothing))
    case Some(id) =>
      var (t, r) := ChangeIncident(s, ResolveChange(id, "Связь восстановлена"), "collector", now);
      (t, if r.Ok? then Ok(NowResolved) else Err(r.error))
  }

  /** The last step of a poll that failed. */
  function OpenUnreachable(s: Store, poll: Poll, failures: nat, maintenance: bool, draw: Draw)
    : (Store, Result<Observed, Error>)
  {
    if maintenance || failures < 2 then (s, Ok(Nothing))
    else
      var (t, r) := OpenIncident(s, UnreachableArgs(poll), draw);
      (t, match r
          case Ok((_, created)) => Ok(if created then NowOpen else Nothing)
          case Err(e) => Err(e))
  }

  function ObserveRouter(s: Store, poll: Poll, now: real, draw: Draw): (Store, Result<Observed, Error>)
  {
    var device := DeviceOf(poll.router);
    var h := RecordHealth(s, poll, now);
    if poll.ok then CloseFound(h, ActiveId(h, RouterKey(poll.router)), draw.now)
    else OpenUnreachable(h, poll, FailuresOf(h, device), InMaintenance(h.maintenance, device, now), draw)
  }

  // ---------- receive_alerts ----------

  datatype Labels = Labels(alertname: string, job: string, instance: string, router: string)

  datatype Alert = Alert(status: string, labels: Labels, summary: string)

  /** A validated alert. */
  datatype Checked = Checked(firing: bool, labels: Labels, title: string)

  datatype AlertError = TooMany | BadStatus | BadLabels | NoAlertName | BadTitle | Failed(error: Error)

  function CheckAlert(a: Alert): Result<Checked, AlertError>
  {
    if a.status !in ["firing", "resolved"] then Err(BadStatus)
    else
      var l := a.labels;
      if |l.alertname| > 256 || |l.job| > 256 || |l.instance| > 256 || |l.router| > 256 then Err(BadLabels)
      else
        var labels := Labels(Strip(l.alertname), Strip(l.job), Strip(l.instance), Strip(l.router));
        if labels.alertname == "" then Err(NoAlertName)
        else
          match Text(if a.summary == "" then labels.alertname else a.summary, 300)
          case Err(_) => Err(BadTitle)
          case Ok(title) => Ok(Checked(a.status == "firing", labels, title))
  }

  function CheckAlerts(alerts: seq<Alert>): (r: Result<seq<Checked>, AlertError>)
    ensures r.Ok? ==> |r.value| == |alerts|
  {
    if alerts == [] then Ok([])
    else
      var init := CheckAlerts(alerts[..|alerts| - 1]);
      if init.Err? then init
      else
        match CheckAlert(alerts[|alerts| - 1])
        case Err(e) => Err(e)
        case Ok(c) => Ok(init.value + [c])
  }

  /** What receive_alerts reads before its loop, and the digest that stands for sha256 of the labels. */
  datatype Setting = Setting(windows: map<string, real>, routers: set<string>, digest: Labels -> string)

  predicate Shared(c: Checked, k: Setting)
  {
    c.labels.alertname == "MikroTikUnreachable" && c.labels.router in k.routers && c.labels.router != ""
  }

  function AlertKey(c: Checked, k: Setting): string
  {
    if Shared(c, k) then RouterKey(c.labels.router) else "prometheus:" + k.digest(c.labels)
  }

  function AlertDevice(c: Checked, k: Setting): string
  {
    if c.labels.router in k.routers && c.labels.router != "" then DeviceOf(c.labels.router) else ""
  }

  datatype Handled = Ignored | AlertOpened | AlertResolved

  function FireAlert(s: Store, c: Checked, k: Setting, draw: Draw): (Store, Result<Handled, Error>)
  {
    if InMaintenance(k.windows, AlertDevice(c, k), draw.now) then (s, Ok(Ignored))
    else
      var (t, r) := OpenIncident(s, OpenArgs(AlertDevice(c, k), c.title, "critical", AlertKey(c, k), "alertmanager"),
                                 draw);
      (t, match r
          case Ok((_, created)) => Ok(if created then AlertOpened else Ignored)
          case Err(e) => Err(e))
  }

  /** The end of the resolved branch, given the two rows it has read. */
  function SettleAlert(s: Store, active: Option<Uuid>, failing: bool, now: real): (Store, Handled)
  {
    if active.None? || failing then (s, Ignored)
    else
      var (t, r) := ChangeIncident(s, ResolveChange(active.value, "Alertmanager: восстановление"), "alertmanager", now);
      (t, if r.Ok? then AlertResolved else Ignored)
  }

  predicate Failing(s: Store, c: Checked, k: Setting)
  {
    Shared(c, k) && FailuresOf(s, AlertDevice(c, k)) > 0
  }

  function HandleAlert(s: Store, c: Checked, k: Setting, draw: Draw): (Store, Result<Handled, Error>)
  {
    if c.firing then FireAlert(s, c, k, draw)
    else
      var (t, h) := SettleAlert(s, ActiveId(s, AlertKey(c, k)), Failing(s, c, k), draw.now);
      (t, Ok(h))
  }

  datatype Outcome = Outcome(opened_: nat, resolved_: nat, ignored: nat, notifications: seq<(string, string)>)

  const NO_OUTCOME := Outcome(0, 0, 0, [])

  function Count(o: Outcome, h: Handled, title: string): Outcome
  {
    match h
    case Ignored => o.(ignored := o.ignored + 1)
    case AlertOpened => o.(opened_ := o.opened_ + 1, notifications := o.notifications + [("ALERT_OPENED", title)])
    case AlertResolved => o.(resolved_ := o.resolved_ + 1,
                             notifications := o.notifications + [("ALERT_RESOLVED", title)])
  }

  /** The loop over validated alerts; an exception from open_incident ends it and keeps what was committed. */
  function HandleAlerts(s: Store, cs: seq<Checked>, k: Setting, draws: seq<Draw>): (Store, Result<Outcome, Error>)
    requires |draws| >= |cs|
    decreases |cs|
  {
    if cs == [] then (s, Ok(NO_OUTCOME))
    else
      var n := |cs| - 1;
      var (mid, r) := HandleAlerts(s, cs[..n], k, draws);
      if r.Err? then (mid, r)
      else
        var (t, h) := HandleAlert(mid, cs[n], k, draws[n]);
        (t, match h
            case Err(e) => Err(e)
            case Ok(x) => Ok(Count(r.value, x, cs[n].title)))
  }

  function ReceiveAlerts(s: Store, alerts: seq<Alert>, k: Setting, draws: seq<Draw>)
    : (Store, Result<Outcome, AlertError>)
    requires |draws| >= |alerts|
  {
    if |alerts| > 100 then (s, Err(TooMany))
    else
      match CheckAlerts(alerts)
      case Err(e) => (s, Err(e))
      case Ok(cs) =>
        var (t, r) := HandleAlerts(s, cs, k, draws);
        (t, if r.Ok? then Ok(r.value) else Err(Failed(r.error)))
  }

  // ---------- what the collector promises ----------

  lemma CloseFoundKeepsInv(s: Store, active: Option<Uuid>, now: real)
    requires Inv(s)
    ensures Inv(CloseFound(s, active, now).0)
  {
    if active.Some? {
      ChangeKeepsInv(s, ResolveChange(active.value, "Связь восстановлена"), "collector", now);
    }
  }

  lemma ObserveKeepsInv(s: Store, poll: Poll, now: real, draw: Draw)
    requires Inv(s)
    ensures Inv(ObserveRouter(s, poll, now, draw).0)
  {
    HealthKeepsInv(s, poll, now);
    var h := RecordHealth(s, poll, now);
    if poll.ok {
      CloseFoundKeepsInv(h, ActiveId(h, RouterKey(poll.router)), draw.now);
    } else {
      OpenKeepsInv(h, UnreachableArgs(poll), draw);
    }
  }

  /** What resolving the active incident of a key writes. */
  lemma ResolveRow(s: Store, key: string, message: string, actor: string, now: real)
    requires UniqueIds(s.incidents) && ActiveByKey(s.incidents, key).Some? && |message| <= 2000
    ensures var i := ActiveByKey(s.incidents, key).value;
            var row := s.incidents[i];
            var (t, r) := ChangeIncident(s, ResolveChange(row.id, message), actor, now);
            r.Ok? && t.incidents == s.incidents[i := row.(status := Resolved, resolved := Some(now), updatedAt := now)]
  {
    var i := ActiveByKey(s.incidents, key).value;
    UuidIsPlain(s.incidents[i].id);
    ByIdFinds(s.incidents, i);
  }

  /** A change that resolves the active incident of a key leaves no active incident under that key. */
  lemma ResolveClears(s: Store, key: string, message: string, actor: string, now: real)
    requires Inv(s) && ActiveId(s, key).Some? && |message| <= 2000
    ensures var (t, r) := ChangeIncident(s, ResolveChange(ActiveId(s, key).value, message), actor, now);
            r.Ok? && ActiveId(t, key).None?
  {
    ResolveRow(s, key, message, actor, now);
    var i := ActiveByKey(s.incidents, key).value;
    var rows := ChangeIncident(s, ResolveChange(s.incidents[i].id, message), actor, now).0.incidents;
    assert forall j :: 0 <= j < |rows| && j != i && IsActive(s.incidents[j]) ==> s.incidents[j].key != key;
    assert forall j :: 0 <= j < |rows| ==> !(rows[j].key == key && IsActive(rows[j]));
  }

  /** ... and leaves the active incident of every other key alone. */
  lemma ResolveElsewhere(s: Store, key: string, message: string, actor: string, now: real, other: string)
    requires Inv(s) && ActiveId(s, key).Some? && |message| <= 2000 && other != key
    ensures var t := ChangeIncident(s, ResolveChange(ActiveId(s, key).value, message), actor, now).0;
            ActiveId(t, other) == ActiveId(s, other)
  {
    ResolveRow(s, key, message, actor, now);
    var i := ActiveByKey(s.incidents, key).value;
    var t := ChangeIncident(s, ResolveChange(s.incidents[i].id, message), actor, now).0;
    ActiveElsewhere(s.incidents, i, t.incidents[i], other);
  }

  lemma {:induction false} ActiveElsewhere(rows: seq<Incident>, i: nat, row: Incident, other: string)
    requires i < |rows| && row.key == rows[i].key && row.key != other
    ensures ActiveByKey(rows[i := row], other) == ActiveByKey(rows, other)
  {
    var n := |rows| - 1;
    if i == n {
      assert rows[i := row][..n] == rows[..n];
    } else {
      assert rows[i := row][..n] == rows[..n][i := row];
      ActiveElsewhere(rows[..n], i, row, other);
    }
  }

  /** After a poll that answered, no incident of that router is active, and exactly an active one was closed. */
  lemma SuccessClears(s: Store, poll: Poll, now: real, draw: Draw)
    requires Inv(s) && poll.ok
    ensures var (t, r) := ObserveRouter(s, poll, now, draw);
            var key := RouterKey(poll.router);
            ActiveId(t, key).None? && FailuresOf(t, DeviceOf(poll.router)) == 0
            && r == Ok(if ActiveId(s, key).Some? then NowResolved else Nothing)
  {
    hide ChangeIncident, Inv, ActiveByKey;
    var key := RouterKey(poll.router);
    var h := RecordHealth(s, poll, now);
    HealthKeepsInv(s, poll, now);
    if ActiveId(h, key).Some? {
      ResolveClears(h, key, "Связь восстановлена", "collector", draw.now);
      ChangeFrame(h, ResolveChange(ActiveId(h, key).value, "Связь восстановлена"), "collector", draw.now);
    }
  }

  /** The collector creates an incident exactly at a streak of two or more, outside maintenance, when none is active. */
  lemma CollectorCreatesIff(s: Store, poll: Poll, now: real, draw: Draw)
    ensures var (t, r) := ObserveRouter(s, poll, now, draw);
            var device := DeviceOf(poll.router);
            (r == Ok(NowOpen)
             <==> !poll.ok && FailuresOf(s, device) + 1 >= 2 && !InMaintenance(s.maintenance, device, now)
                  && ActiveId(s, RouterKey(poll.router)).None?
                  && ValidOpen(UnreachableArgs(poll)) && ById(s.incidents, draw.id).None?)
            && (r == Ok(NowOpen) <==> |t.incidents| > |s.incidents|)
            && (r == Ok(NowOpen) ==> ActiveId(t, RouterKey(poll.router)) == Some(draw.id))
  {
    hide OpenIncident, ChangeIncident, ById, ActiveByKey, ValidOpen;
    var h := RecordHealth(s, poll, now);
    var args := UnreachableArgs(poll);
    if poll.ok {
      var active := ActiveId(h, RouterKey(poll.router));
      if active.Some? {
        ChangeFrame(h, ResolveChange(active.value, "Связь восстановлена"), "collector", draw.now);
      }
    } else {
      assert KeyOf(args, draw) == RouterKey(poll.router);
      OpenFrame(h, args, draw);
      OpenCreatesIff(h, args, draw);
      var r := OpenIncident(h, args, draw).1;
      OpenReturns(h, args, draw);
      if r.Ok? && r.value.1 { CreatedIsActive(h, args, draw); }
    }
  }

  lemma OpenReturns(s: Store, args: OpenArgs, draw: Draw)
    ensures var r := OpenIncident(s, args, draw).1; r.Ok? && r.value.1 ==> r.value.0 == draw.id
  {
  }

  // ---------- what receive_alerts promises ----------

  lemma HandleKeepsInv(s: Store, c: Checked, k: Setting, draw: Draw)
    requires Inv(s)
    ensures Inv(HandleAlert(s, c, k, draw).0)
  {
    if c.firing {
      OpenKeepsInv(s, OpenArgs(AlertDevice(c, k), c.title, "critical", AlertKey(c, k), "alertmanager"), draw);
    } else if ActiveId(s, AlertKey(c, k)).Some? {
      var id := ActiveId(s, AlertKey(c, k)).value;
      ChangeKeepsInv(s, ResolveChange(id, "Alertmanager: восстановление"), "alertmanager", draw.now);
    }
  }

  lemma {:induction false} AlertsKeepInv(s: Store, cs: seq<Checked>, k: Setting, draws: seq<Draw>)
    requires Inv(s) && |draws| >= |cs|
    ensures Inv(HandleAlerts(s, cs, k, draws).0)
    decreases |cs|
  {
    if cs != [] {
      var n := |cs| - 1;
      AlertsKeepInv(s, cs[..n], k, draws);
      HandleKeepsInv(HandleAlerts(s, cs[..n], k, draws).0, cs[n], k, draws[n]);
    }
  }

  lemma RouterKeysDiffer(router: string, c: Checked, k: Setting)
    ensures AlertKey(c, k) == RouterKey(router) <==> Shared(c, k) && c.labels.router == router
  {
    if Shared(c, k) {
      assert RouterKey(router)[|"router-unreachable:"|..] == router;
      assert RouterKey(c.labels.router)[|"router-unreachable:"|..] == c.labels.router;
    } else {
      assert AlertKey(c, k)[0] == 'p' && RouterKey(router)[0] == 'r';
    }
  }

  lemma OpenKeepsActive(s: Store, args: OpenArgs, draw: Draw, key: string)
    requires ActiveId(s, key).Some?
    ensures ActiveId(OpenIncident(s, args, draw).0, key).Some?
  {
    var i := ActiveByKey(s.incidents, key).value;
    var t := OpenIncident(s, args, draw).0;
    assert t.incidents[i].key == key && IsActive(t.incidents[i]);
  }

  lemma HandleFrame(s: Store, c: Checked, k: Setting, draw: Draw)
    ensures var (t, r) := HandleAlert(s, c, k, draw);
            t.health == s.health
            && |t.incidents| == |s.incidents| + (if r == Ok(AlertOpened) then 1 else 0)
  {
    if c.firing {
      OpenFrame(s, OpenArgs(AlertDevice(c, k), c.title, "critical", AlertKey(c, k), "alertmanager"), draw);
    } else if ActiveId(s, AlertKey(c, k)).Some? {
      ChangeFrame(s, ResolveChange(ActiveId(s, AlertKey(c, k)).value, "Alertmanager: восстановление"), "alertmanager",
                  draw.now);
    }
  }

  lemma SettleKeepsFailing(s: Store, c: Checked, k: Setting, now: real, router: string)
    requires Inv(s) && FailuresOf(s, DeviceOf(router)) > 0 && ActiveId(s, RouterKey(router)).Some?
    ensures ActiveId(SettleAlert(s, ActiveId(s, AlertKey(c, k)), Failing(s, c, k), now).0, RouterKey(router)).Some?
  {
    RouterKeysDiffer(router, c, k);
    if ActiveId(s, AlertKey(c, k)).Some? && AlertKey(c, k) != RouterKey(router) {
      ResolveElsewhere(s, AlertKey(c, k), "Alertmanager: восстановление", "alertmanager", now, RouterKey(router));
    }
  }

  lemma HandleKeepsFailing(s: Store, c: Checked, k: Setting, draw: Draw, router: string)
    requires Inv(s) && FailuresOf(s, DeviceOf(router)) > 0 && ActiveId(s, RouterKey(router)).Some?
    ensures ActiveId(HandleAlert(s, c, k, draw).0, RouterKey(router)).Some?
  {
    if c.firing {
      OpenKeepsActive(s, OpenArgs(AlertDevice(c, k), c.title, "critical", AlertKey(c, k), "alertmanager"), draw,
                      RouterKey(router));
    } else {
      SettleKeepsFailing(s, c, k, draw.now, router);
    }
  }

  /** No batch of alerts closes the incident of a router whose polls are failing. */
  lemma {:induction false} AlertsNeverCloseFailing(s: Store, cs: seq<Checked>, k: Setting, draws: seq<Draw>,
                                                   router: string)
    requires Inv(s) && |draws| >= |cs|
    requires FailuresOf(s, DeviceOf(router)) > 0 && ActiveId(s, RouterKey(router)).Some?
    ensures var t := HandleAlerts(s, cs, k, draws).0;
            ActiveId(t, RouterKey(router)).Some? && t.health == s.health
    decreases |cs|
  {
    if cs != [] {
      var n := |cs| - 1;
      AlertsNeverCloseFailing(s, cs[..n], k, draws, router);
      AlertsKeepInv(s, cs[..n], k, draws);
      var mid := HandleAlerts(s, cs[..n], k, draws).0;
      HandleFrame(mid, cs[n], k, draws[n]);
      HandleKeepsFailing(mid, cs[n], k, draws[n], router);
    }
  }

  /** Every alert of a completed batch is counted once; each opening adds a row, and each count has its notification. */
  lemma {:induction false} OutcomeAddsUp(s: Store, cs: seq<Checked>, k: Setting, draws: seq<Draw>)
    requires |draws| >= |cs|
    ensures var (t, r) := HandleAlerts(s, cs, k, draws);
            r.Ok? ==> r.value.opened_ + r.value.resolved_ + r.value.ignored == |cs|
                      && |t.incidents| == |s.incidents| + r.value.opened_
                      && |r.value.notifications| == r.value.opened_ + r.value.resolved_
    decreases |cs|
  {
    if cs != [] {
      var n := |cs| - 1;
      OutcomeAddsUp(s, cs[..n], k, draws);
      HandleFrame(HandleAlerts(s, cs[..n], k, draws).0, cs[n], k, draws[n]);
    }
  }

  // ---------- the streak of failed polls ----------

  /** One whole operation, run without interleaving. */
  datatype Op = OpOpen(args: OpenArgs, draw: Draw)
              | OpChange(body: Change, actor: string, now: real)
              | OpMaintain(device: string, until: real, now: real)
              | OpObserve(poll: Poll, now: real, draw: Draw)
              | OpAlerts(alerts: seq<Checked>, setting: Setting, draws: seq<Draw>)

  function RunOp(s: Store, op: Op): Store
  {
    match op
    case OpOpen(args, draw) => OpenIncident(s, args, draw).0
    case OpChange(body, actor, now) => ChangeIncident(s, body, actor, now).0
    case OpMaintain(device, until, now) => SaveMaintenance(s, device, until, now)
    case OpObserve(poll, now, draw) => ObserveRouter(s, poll, now, draw).0
    case OpAlerts(cs, k, draws) => if |draws| < |cs| then s else HandleAlerts(s, cs, k, draws).0
  }

  function RunOps(ops: seq<Op>): Store
  {
    if ops == [] then EMPTY else RunOp(RunOps(ops[..|ops| - 1]), ops[|ops| - 1])
  }

  /** Failed polls of a router since its last poll that answered. */
  function Streak(ops: seq<Op>, router: string): nat
  {
    if ops == [] then 0
    else
      var before := Streak(ops[..|ops| - 1], router);
      match ops[|ops| - 1]
      case OpObserve(poll, _, _) => if poll.router != router then before else if poll.ok then 0 else before + 1
      case _ => before
  }

  lemma {:induction false} AlertsKeepHealth(s: Store, cs: seq<Checked>, k: Setting, draws: seq<Draw>)
    requires |draws| >= |cs|
    ensures HandleAlerts(s, cs, k, draws).0.health == s.health
    decreases |cs|
  {
    if cs != [] {
      var n := |cs| - 1;
      AlertsKeepHealth(s, cs[..n], k, draws);
      HandleFrame(HandleAlerts(s, cs[..n], k, draws).0, cs[n], k, draws[n]);
    }
  }

  lemma ObserveHealth(s: Store, poll: Poll, now: real, draw: Draw)
    ensures ObserveRouter(s, poll, now, draw).0.health == RecordHealth(s, poll, now).health
  {
    var h := RecordHealth(s, poll, now);
    if poll.ok {
      if ActiveId(h, RouterKey(poll.router)).Some? {
        ChangeFrame(h, ResolveChange(ActiveId(h, RouterKey(poll.router)).value, "Связь восстановлена"), "collector",
                    draw.now);
      }
    } else {
      OpenFrame(h, UnreachableArgs(poll), draw);
    }
  }

  lemma RunOpKeepsInv(s: Store, op: Op)
    requires Inv(s)
    ensures Inv(RunOp(s, op))
  {
    match op
    case OpOpen(args, draw) => OpenKeepsInv(s, args, draw);
    case OpChange(body, actor, now) => ChangeKeepsInv(s, body, actor, now);
    case OpMaintain(device, until, now) =>
    case OpObserve(poll, now, draw) => ObserveKeepsInv(s, poll, now, draw);
    case OpAlerts(cs, k, draws) =>
      if |draws| >= |cs| { AlertsKeepInv(s, cs, k, draws); }
  }

  lemma RunOpHealth(s: Store, op: Op)
    ensures RunOp(s, op).health == if op.OpObserve? then RecordHealth(s, op.poll, op.now).health else s.health
  {
    match op
    case OpOpen(args, draw) => OpenFrame(s, args, draw);
    case OpChange(body, actor, now) => ChangeFrame(s, body, actor, now);
    case OpMaintain(device, until, now) =>
    case OpObserve(poll, now, draw) => ObserveHealth(s, poll, now, draw);
    case OpAlerts(cs, k, draws) =>
      if |draws| >= |cs| { AlertsKeepHealth(s, cs, k, draws); }
  }

  /** Over any serial run the store is sound and `failures` is the trailing streak of failed polls. */
  lemma {:induction false} FailuresAreStreak(ops: seq<Op>, router: string)
    ensures Inv(RunOps(ops))
    ensures FailuresOf(RunOps(ops), DeviceOf(router)) == Streak(ops, router)
  {
    if ops != [] {
      var s := RunOps(ops[..|ops| - 1]);
      var op := ops[|ops| - 1];
      FailuresAreStreak(ops[..|ops| - 1], router);
      RunOpKeepsInv(s, op);
      RunOpHealth(s, op);
      if op.OpObserve? {
        assert DeviceOf(op.poll.router)[|"router:"|..] == op.poll.router && DeviceOf(router)[|"router:"|..] == router;
      }
    }
  }

  /** What every serial run promises about the operation that comes next. */
  lemma SerialSafety(ops: seq<Op>, poll: Poll, now: real, draw: Draw)
    ensures var s := RunOps(ops);
            var (t, r) := ObserveRouter(s, poll, now, draw);
            var key := RouterKey(poll.router);
            var device := DeviceOf(poll.router);
            && (|t.incidents| > |s.incidents|
                ==> !poll.ok && Streak(ops, poll.router) >= 1 && !InMaintenance(s.maintenance, device, now)
                    && ActiveId(s, key).None?)
            && (poll.ok ==> ActiveId(t, key).None? && r.Ok?)
            && (!poll.ok && Streak(ops, poll.router) >= 1 && !InMaintenance(s.maintenance, device, now)
                && ActiveId(s, key).None? && ValidOpen(UnreachableArgs(poll)) && ById(s.incidents, draw.id).None?
                ==> r == Ok(NowOpen) && ActiveId(t, key) == Some(draw.id))
  {
    hide ObserveRouter, Inv, ActiveId, ById, ValidOpen, InMaintenance;
    FailuresAreStreak(ops, poll.router);
    CollectorCreatesIff(RunOps(ops), poll, now, draw);
    if poll.ok {
      SuccessClears(RunOps(ops), poll, now, draw);
    }
  }

  /** In any serial run, a batch of alerts never closes the incident of a router whose streak is positive. */
  lemma SerialAlerts(ops: seq<Op>, cs: seq<Checked>, k: Setting, draws: seq<Draw>, router: string)
    requires |draws| >= |cs| && Streak(ops, router) > 0 && ActiveId(RunOps(ops), RouterKey(router)).Some?
    ensures ActiveId(RunOps(ops + [OpAlerts(cs, k, draws)]), RouterKey(router)).Some?
  {
    hide HandleAlerts, Inv, FailuresOf, ActiveId;
    FailuresAreStreak(ops, router);
    AlertsNeverCloseFailing(RunOps(ops), cs, k, draws, router);
    assert (ops + [OpAlerts(cs, k, draws)])[..|ops|] == ops;
  }
}
