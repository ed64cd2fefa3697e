/**
 What receive_alerts of netpulse/operations.py makes of a batch as it is posted: which batches it accepts, what
 one alert does, by its status and its labels, and how the alerts of a batch add up.
 */
module AlertBatches {
  import opened Wrappers
  import opened Incidents
  import opened Operations
  import opened IncidentRows

  // ---------- what an alert says ----------

  predicate Reads(a: Labels, l: Labels)
  {
    StripsTo(a.alertname, l.alertname) && StripsTo(a.job, l.job) && StripsTo(a.instance, l.instance)
    && StripsTo(a.router, l.router)
  }

  /** The title of an alert: its summary, or its name when there is none. */
  predicate Titled(a: Alert, title: string)
  {
    StripsTo(if a.summary != "" then a.summary else a.labels.alertname, title)
  }

  predicate WellFormed(a: Alert)
  {
    && (a.status == "firing" || a.status == "resolved")
    && |a.labels.alertname| <= 256 && |a.labels.job| <= 256 && |a.labels.instance| <= 256 && |a.labels.router| <= 256
    && !Blank(a.labels.alertname) && |a.summary| <= 300
  }

  /** The device and the event key of the labels, given the routers known. */
  function DeviceFor(l: Labels, routers: set<string>): string
  {
    if l.router != "" && l.router in routers then "router:" + l.router else ""
  }

  predicate IsShared(l: Labels, routers: set<string>)
  {
    l.alertname == "MikroTikUnreachable" && l.router != "" && l.router in routers
  }

  function KeyFor(l: Labels, k: Setting): string
  {
    if IsShared(l, k.routers) then "router-unreachable:" + l.router else "prometheus:" + k.digest(l)
  }

  /** An alert passes validation exactly when it is well formed, and what it passes on is what it says. */
  lemma CheckedIff(a: Alert)
    ensures CheckAlert(a).Ok? <==> WellFormed(a)
    ensures CheckAlert(a).Ok? ==>
              var c := CheckAlert(a).value;
              (if c.firing then a.status == "firing" else a.status == "resolved")
              && Reads(a.labels, c.labels) && Titled(a, c.title)
  {
    hide Strip, StripsTo, Blank;
    var l := a.labels;
    BlankIff(l.alertname);
    StripTwice(l.alertname);
    StripIff(l.alertname, Strip(l.alertname));
    StripIff(l.job, Strip(l.job));
    StripIff(l.instance, Strip(l.instance));
    StripIff(l.router, Strip(l.router));
    StripIff(a.summary, Strip(a.summary));
  }

  lemma ReadsOnce(a: Labels, l: Labels, m: Labels)
    requires Reads(a, l) && Reads(a, m)
    ensures l == m
  {
    hide Strip, StripsTo;
    StripIff(a.alertname, l.alertname);
    StripIff(a.alertname, m.alertname);
    StripIff(a.job, l.job);
    StripIff(a.job, m.job);
    StripIff(a.instance, l.instance);
    StripIff(a.instance, m.instance);
    StripIff(a.router, l.router);
    StripIff(a.router, m.router);
  }

  lemma TitledOnce(a: Alert, title: string, other: string)
    requires Titled(a, title) && Titled(a, other)
    ensures title == other
  {
    hide Strip, StripsTo;
    var text := if a.summary != "" then a.summary else a.labels.alertname;
    StripIff(text, title);
    StripIff(text, other);
  }

  predicate Checks(alerts: seq<Alert>, cs: seq<Checked>)
  {
    |cs| == |alerts| && forall i :: 0 <= i < |cs| ==> CheckAlert(alerts[i]) == Ok(cs[i])
  }

  /** A batch passes validation exactly when all its alerts do. */
  lemma {:induction false} CheckedAllIff(alerts: seq<Alert>)
    ensures CheckAlerts(alerts).Ok? <==> forall a <- alerts :: WellFormed(a)
    ensures CheckAlerts(alerts).Ok? ==> Checks(alerts, CheckAlerts(alerts).value)
  {
    hide CheckAlert, WellFormed;
    if alerts != [] {
      var n := |alerts| - 1;
      CheckedAllIff(alerts[..n]);
      CheckedIff(alerts[n]);
      assert alerts == alerts[..n] + [alerts[n]];
    }
  }

  /** Which batches are accepted; one that is not changes nothing. */
  lemma AcceptedIff(s: Store, alerts: seq<Alert>, k: Setting, draws: seq<Draw>)
    requires |draws| >= |alerts|
    ensures var (t, r) := ReceiveAlerts(s, alerts, k, draws);
            && (r.Ok? || r.error.Failed? <==> |alerts| <= 100 && forall a <- alerts :: WellFormed(a))
            && (r == Err(TooMany) <==> |alerts| > 100)
            && (r.Err? && !r.error.Failed? ==> t == s)
  {
    hide HandleAlerts, WellFormed, CheckAlert;
    CheckedAllIff(alerts);
    NeverTooMany(alerts);
  }

  lemma {:induction false} NeverTooMany(alerts: seq<Alert>)
    ensures CheckAlerts(alerts).Err? ==> !CheckAlerts(alerts).error.TooMany? && !CheckAlerts(alerts).error.Failed?
  {
    if alerts != [] { NeverTooMany(alerts[..|alerts| - 1]); }
  }

  // ---------- one alert ----------

  lemma OneHandled(s: Store, c: Checked, k: Setting, draw: Draw)
    ensures HandleAlerts(s, [c], k, [draw])
         == var (t, h) := HandleAlert(s, c, k, draw);
            (t, match h
                case Err(e) => Err(e)
                case Ok(x) => Ok(Count(NO_OUTCOME, x, c.title)))
  {
    hide HandleAlert, Count;
    assert [c][..0] == [] && HandleAlerts(s, [c][..0], k, [draw]) == (s, Ok(NO_OUTCOME));
  }

  lemma OneChecked(s: Store, a: Alert, c: Checked, k: Setting, draw: Draw)
    requires CheckAlert(a) == Ok(c)
    ensures ReceiveAlerts(s, [a], k, [draw])
         == var (t, h) := HandleAlert(s, c, k, draw);
            (t, if h.Ok? then Ok(Count(NO_OUTCOME, h.value, c.title)) else Err(Failed(h.error)))
  {
    hide CheckAlert, HandleAlert, HandleAlerts, Count;
    OneHandled(s, c, k, draw);
    assert [a][..0] == [] && [] + [c] == [c];
    assert CheckAlerts([a][..0]) == Ok([]) && CheckAlerts([a]) == Ok([c]);
  }

  lemma CountFirst(h: Handled, title: string)
    ensures Count(NO_OUTCOME, h, title)
         == match h
            case Ignored => Outcome(0, 0, 1, [])
            case AlertOpened => Outcome(1, 0, 0, [("ALERT_OPENED", title)])
            case AlertResolved => Outcome(0, 1, 0, [("ALERT_RESOLVED", title)])
  {
  }

  /** The alert, as checked, with its device and key. */
  lemma CheckedOf(a: Alert, l: Labels, title: string, k: Setting) returns (c: Checked)
    requires WellFormed(a) && Reads(a.labels, l) && Titled(a, title)
    ensures CheckAlert(a) == Ok(c) && c == Checked(a.status == "firing", l, title)
    ensures AlertDevice(c, k) == DeviceFor(l, k.routers) && AlertKey(c, k) == KeyFor(l, k)
    ensures Shared(c, k) <==> IsShared(l, k.routers)
  {
    hide CheckAlert, Reads, Titled;
    CheckedIff(a);
    c := CheckAlert(a).value;
    ReadsOnce(a.labels, l, c.labels);
    TitledOnce(a, title, c.title);
  }

  predicate InWindow(windows: map<string, real>, device: string, now: real)
  {
    device in windows && windows[device] > now
  }

  /** A firing alert inside the window of its device is ignored. */
  lemma FiringInWindow(s: Store, a: Alert, l: Labels, title: string, k: Setting, draw: Draw)
    requires WellFormed(a) && a.status == "firing" && Reads(a.labels, l) && Titled(a, title)
    requires InWindow(k.windows, DeviceFor(l, k.routers), draw.now)
    ensures ReceiveAlerts(s, [a], k, [draw]) == (s, Ok(Outcome(0, 0, 1, [])))
  {
    hide CheckAlert, WellFormed, Reads, Titled;
    var c := CheckedOf(a, l, title, k);
    OneChecked(s, a, c, k, draw);
  }

  /** The row and the note of an incident the Alertmanager opens. */
  predicate OpenedRow(s: Store, t: Store, device: string, key: string, title: string, draw: Draw)
  {
    && |t.incidents| == |s.incidents| + 1 && t.incidents[..|s.incidents|] == s.incidents
    && |t.timeline| == |s.timeline| + 1 && t.timeline[..|s.timeline|] == s.timeline
    && var row, note := t.incidents[|s.incidents|], t.timeline[|s.timeline|];
    && row.id == draw.id && row.key == key && StripsTo(device, row.device) && StripsTo(title, row.title)
    && row.severity == "critical" && row.status == Open && row.openedAt == draw.now
    && note.incident == draw.id && note.actor == "alertmanager" && note.verb == Opened
  }

  /** A firing alert outside its window opens an incident of its own, or counts once more under the active one. */
  lemma FiringOpens(s: Store, a: Alert, l: Labels, title: string, k: Setting, draw: Draw)
    requires WellFormed(a) && a.status == "firing" && Reads(a.labels, l) && Titled(a, title)
    requires !InWindow(k.windows, DeviceFor(l, k.routers), draw.now)
    requires |DeviceFor(l, k.routers)| <= 64 && !Blank(title)
    ensures var (t, r) := ReceiveAlerts(s, [a], k, [draw]);
            var key := KeyFor(l, k);
            && (ActiveByKey(s.incidents, key).None? && ById(s.incidents, draw.id).None? ==>
                  r == Ok(Outcome(1, 0, 0, [("ALERT_OPENED", title)]))
                  && OpenedRow(s, t, DeviceFor(l, k.routers), key, title, draw))
            && (ActiveByKey(s.incidents, key).Some? ==>
                  r == Ok(Outcome(0, 0, 1, [])) && t.timeline == s.timeline && |t.incidents| == |s.incidents|
                  && exists i :: 0 <= i < |s.incidents| && Repeats(s.incidents[i], t.incidents[i], key, draw.now))
  {
    hide CheckAlert, WellFormed, Reads, Titled, StripsTo, OpenIncident, Blank, Strip, DeviceFor, KeyFor, Repeats;
    hide Count, AlertKey, AlertDevice, ReceiveAlerts;
    var c := CheckedOf(a, l, title, k);
    OneChecked(s, a, c, k, draw);
    CountFirst(Ignored, title);
    CountFirst(AlertOpened, title);
    var args := OpenArgs(AlertDevice(c, k), title, "critical", AlertKey(c, k), "alertmanager");
    TitleFits(a, title);
    BlankIff(title);
    KeyIsNamed(l, k);
    OpenCreatesIff(s, args, draw);
    OpenRefusals(s, args, draw);
    var r := OpenIncident(s, args, draw).1;
    if r.Ok? && r.value.1 { CreatedRow(s, args, draw); }
    if r.Ok? && !r.value.1 { RepeatedRow(s, args, draw); }
    OpenWhen(s, args, draw);
  }

  lemma TitleFits(a: Alert, title: string)
    requires WellFormed(a) && Titled(a, title)
    ensures |title| <= 300
  {
    hide Strip, StripsTo;
    StripIff(if a.summary != "" then a.summary else a.labels.alertname, title);
  }

  lemma KeyIsNamed(l: Labels, k: Setting)
    ensures KeyFor(l, k) != ""
  {
  }

  lemma OpenWhen(s: Store, args: OpenArgs, draw: Draw)
    requires ValidOpen(args)
    ensures OpenIncident(s, args, draw).1.Ok?
       <==> ActiveByKey(s.incidents, KeyOf(args, draw)).Some? || ById(s.incidents, draw.id).None?
  {
    hide Strip, ById, ActiveByKey;
  }

  /** A resolved alert never adds a row; it closes the active incident of its key unless polls of its router fail. */
  lemma ResolvedCloses(s: Store, a: Alert, l: Labels, title: string, k: Setting, draw: Draw)
    requires Inv(s) && WellFormed(a) && a.status == "resolved" && Reads(a.labels, l) && Titled(a, title)
    ensures var (t, r) := ReceiveAlerts(s, [a], k, [draw]);
            var key := KeyFor(l, k);
            var failing := IsShared(l, k.routers) && FailuresOf(s, "router:" + l.router) > 0;
            && |t.incidents| == |s.incidents|
            && (ActiveId(s, key).None? || failing ==> t == s && r == Ok(Outcome(0, 0, 1, [])))
            && (ActiveId(s, key).Some? && !failing ==>
                  ActiveId(t, key).None? && r == Ok(Outcome(0, 1, 0, [("ALERT_RESOLVED", title)]))
                  && |t.timeline| == |s.timeline| + 1
                  && var note := t.timeline[|s.timeline|];
                     note.incident == ActiveId(s, key).value && note.actor == "alertmanager" && note.verb == Resolve
                     && note.message == "Alertmanager: восстановление" && note.ts == draw.now)
  {
    hide CheckAlert, WellFormed, Reads, Titled, ChangeIncident, Inv, ActiveId, Count, AlertKey, ReceiveAlerts, KeyFor;
    var c := CheckedOf(a, l, title, k);
    OneChecked(s, a, c, k, draw);
    CountFirst(Ignored, title);
    CountFirst(AlertResolved, title);
    var key, message := KeyFor(l, k), "Alertmanager: восстановление";
    if ActiveId(s, key).Some? {
      ResolveClears(s, key, message, "alertmanager", draw.now);
      ChangeFrame(s, ResolveChange(ActiveId(s, key).value, message), "alertmanager", draw.now);
      ResolveNotes(s, ActiveId(s, key).value, message, "alertmanager", draw.now);
    }
  }

  // ---------- the alerts of a batch ----------

  function CountOf(alerts: seq<Alert>, status: string): nat
  {
    if alerts == [] then 0
    else CountOf(alerts[..|alerts| - 1], status) + if alerts[|alerts| - 1].status == status then 1 else 0
  }

  lemma {:induction false} HandledBounds(s: Store, alerts: seq<Alert>, cs: seq<Checked>, k: Setting, draws: seq<Draw>)
    requires Checks(alerts, cs) && |draws| >= |cs|
    ensures var r := HandleAlerts(s, cs, k, draws).1;
            r.Ok? ==> r.value.opened_ <= CountOf(alerts, "firing") && r.value.resolved_ <= CountOf(alerts, "resolved")
    decreases |cs|
  {
    hide CheckAlert, HandleAlert, Reads, Titled, WellFormed, CountOf, Count, Checks;
    ChecksInit(alerts, cs);
    if cs != [] {
      var n := |cs| - 1;
      HandledBounds(s, alerts[..n], cs[..n], k, draws);
      CheckedIff(alerts[n]);
      var (mid, r) := HandleAlerts(s, cs[..n], k, draws);
      HandledKind(mid, cs[n], k, draws[n]);
      CountGrows(alerts);
      var h := HandleAlert(mid, cs[n], k, draws[n]).1;
      if r.Ok? && h.Ok? { CountMoves(r.value, h.value, cs[n].title); }
    }
  }

  lemma ChecksInit(alerts: seq<Alert>, cs: seq<Checked>)
    requires Checks(alerts, cs)
    ensures |cs| == |alerts|
    ensures cs != [] ==> var n := |cs| - 1; Checks(alerts[..n], cs[..n]) && CheckAlert(alerts[n]) == Ok(cs[n])
  {
    hide CheckAlert;
    if cs != [] {
      var n := |cs| - 1;
      assert forall i :: 0 <= i < n ==> alerts[..n][i] == alerts[i] && cs[..n][i] == cs[i];
    }
  }

  lemma CountGrows(alerts: seq<Alert>)
    requires alerts != []
    ensures forall status :: CountOf(alerts, status) == CountOf(alerts[..|alerts| - 1], status)
                                                        + if alerts[|alerts| - 1].status == status then 1 else 0
  {
  }

  lemma CountMoves(o: Outcome, h: Handled, title: string)
    ensures Count(o, h, title).opened_ == o.opened_ + if h == AlertOpened then 1 else 0
    ensures Count(o, h, title).resolved_ == o.resolved_ + if h == AlertResolved then 1 else 0
  {
  }

  lemma HandledKind(s: Store, c: Checked, k: Setting, draw: Draw)
    ensures var r := HandleAlert(s, c, k, draw).1;
            (r == Ok(AlertOpened) ==> c.firing) && (r == Ok(AlertResolved) ==> !c.firing)
  {
    hide OpenIncident, ChangeIncident;
  }

  /**
   In an accepted batch no more are opened than are firing, each with a row of its own, no more are
   resolved than say so, and every alert is counted.
   */
  lemma BatchBounds(s: Store, alerts: seq<Alert>, k: Setting, draws: seq<Draw>)
    requires |draws| >= |alerts|
    ensures var (t, r) := ReceiveAlerts(s, alerts, k, draws);
            r.Ok? ==> r.value.opened_ <= CountOf(alerts, "firing") && r.value.resolved_ <= CountOf(alerts, "resolved")
                      && r.value.opened_ + r.value.resolved_ + r.value.ignored == |alerts|
                      && |t.incidents| == |s.incidents| + r.value.opened_
  {
    CheckedAllIff(alerts);
    hide CheckAlerts, HandleAlerts, Checks;
    if CheckAlerts(alerts).Ok? {
      HandledBounds(s, alerts, CheckAlerts(alerts).value, k, draws);
      OutcomeAddsUp(s, CheckAlerts(alerts).value, k, draws);
    }
  }

  function Sum(x: Outcome, y: Outcome): Outcome
  {
    Outcome(x.opened_ + y.opened_, x.resolved_ + y.resolved_, x.ignored + y.ignored, x.notifications + y.notifications)
  }

  lemma {:induction false} HandledConcat(s: Store, a: seq<Checked>, b: seq<Checked>, k: Setting, da: seq<Draw>,
                                         db: seq<Draw>)
    requires |da| == |a| && |db| >= |b|
    ensures HandleAlerts(s, a + b, k, da + db)
         == var (m, x) := HandleAlerts(s, a, k, da);
            var (t, y) := HandleAlerts(m, b, k, db);
            if x.Err? then (m, x) else (t, if y.Err? then y else Ok(Sum(x.value, y.value)))
    decreases |b|
  {
    hide HandleAlert, Count, Sum;
    if b == [] {
      assert a + b == a;
      MoreDraws(s, a, k, da, db);
      var (m, x) := HandleAlerts(s, a, k, da);
      if x.Ok? { SumNothing(x.value); }
    } else {
      var n := |b| - 1;
      HandledConcat(s, a, b[..n], k, da, db);
      assert (a + b)[..|a + b| - 1] == a + b[..n];
      assert (a + b)[|a| + n] == b[n] && (da + db)[|a| + n] == db[n];
      var (m, x) := HandleAlerts(s, a, k, da);
      var (u, y) := HandleAlerts(m, b[..n], k, db);
      if x.Ok? && y.Ok? {
        var h := HandleAlert(u, b[n], k, db[n]).1;
        if h.Ok? { SumCounts(x.value, y.value, h.value, b[n].title); }
      }
    }
  }

  lemma SumNothing(x: Outcome)
    ensures Sum(x, NO_OUTCOME) == x
  {
  }

  lemma SumCounts(x: Outcome, y: Outcome, h: Handled, title: string)
    ensures Count(Sum(x, y), h, title) == Sum(x, Count(y, h, title))
  {
  }

  lemma {:induction false} MoreDraws(s: Store, cs: seq<Checked>, k: Setting, draws: seq<Draw>, more: seq<Draw>)
    requires |draws| >= |cs|
    ensures HandleAlerts(s, cs, k, draws + more) == HandleAlerts(s, cs, k, draws)
    decreases |cs|
  {
    hide HandleAlert;
    if cs != [] { MoreDraws(s, cs[..|cs| - 1], k, draws, more); }
  }

  lemma ChecksConcat(a: seq<Alert>, b: seq<Alert>)
    requires CheckAlerts(a).Ok? && CheckAlerts(b).Ok?
    ensures CheckAlerts(a + b) == Ok(CheckAlerts(a).value + CheckAlerts(b).value)
  {
    hide CheckAlert, WellFormed;
    CheckedAllIff(a);
    CheckedAllIff(b);
    CheckedAllIff(a + b);
    assert forall x <- a + b :: WellFormed(x);
    assert CheckAlerts(a + b).value == CheckAlerts(a).value + CheckAlerts(b).value;
  }

  lemma Accepted(s: Store, alerts: seq<Alert>, k: Setting, draws: seq<Draw>)
    requires |draws| >= |alerts| && |alerts| <= 100 && CheckAlerts(alerts).Ok?
    ensures ReceiveAlerts(s, alerts, k, draws)
         == var (t, r) := HandleAlerts(s, CheckAlerts(alerts).value, k, draws);
            (t, if r.Ok? then Ok(r.value) else Err(Failed(r.error)))
  {
  }

  /** A batch is handled alert by alert, in its order: what comes first is done before the rest, or ends the batch. */
  lemma BatchConcat(s: Store, a: seq<Alert>, b: seq<Alert>, k: Setting, da: seq<Draw>, db: seq<Draw>)
    requires |da| == |a| && |db| >= |b| && |a| + |b| <= 100
    requires (forall x <- a :: WellFormed(x)) && forall x <- b :: WellFormed(x)
    ensures ReceiveAlerts(s, a + b, k, da + db)
         == var (m, x) := ReceiveAlerts(s, a, k, da);
            var (t, y) := ReceiveAlerts(m, b, k, db);
            if x.Err? then (m, x) else (t, if y.Err? then y else Ok(Sum(x.value, y.value)))
  {
    CheckedAllIff(a);
    CheckedAllIff(b);
    hide HandleAlerts, CheckAlerts, Sum, Checks, WellFormed, ReceiveAlerts;
    ChecksConcat(a, b);
    var va, vb := CheckAlerts(a).value, CheckAlerts(b).value;
    var (m, x) := HandleAlerts(s, va, k, da);
    var (t, y) := HandleAlerts(m, vb, k, db);
    HandledConcat(s, va, vb, k, da, db);
    Accepted(s, a + b, k, da + db);
    Accepted(s, a, k, da);
    Accepted(m, b, k, db);
    assert HandleAlerts(s, CheckAlerts(a + b).value, k, da + db)
        == if x.Err? then (m, x) else (t, if y.Err? then y else Ok(Sum(x.value, y.value)));
  }
}
