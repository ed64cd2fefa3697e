/** The Operations object: the four tables as fields, changed in place by its methods. */
module OperationsService {
  import opened Wrappers
  import opened Incidents
  import Operations

  class Service {
    var incidents: seq<Incident>
    var timeline: seq<Entry>
    var health: map<string, Health>
    var maintenance: map<string, real>

    function Tables(): Store
      reads this
    {
      Store(incidents, timeline, health, maintenance)
    }

    constructor ()
      ensures Tables() == EMPTY && Inv(Tables())
    {
      incidents, timeline, health, maintenance := [], [], map[], map[];
    }

    method AddTimeline(id: string, now: real, actor: string, verb: Verb, message: string)
      modifies this`timeline
      ensures timeline == old(timeline) + [Note(id, now, actor, verb, message)]
    {
      timeline := timeline + [Entry(id, now, Take(actor, 160), verb, Take(message, 2000))];
    }

    method OpenIncident(args: OpenArgs, draw: Draw) returns (r: Result<(Uuid, bool), Error>)
      modifies this
      ensures (Tables(), r) == Incidents.OpenIncident(old(Tables()), args, draw)
      ensures old(Inv(Tables())) ==> Inv(Tables()) && r != Err(DuplicateActiveKey)
    {
      ghost var before := Tables();
      if Inv(before) { OpenKeepsInv(before, args, draw); }
      var device := Text(args.device, 64);
      var title := Text(args.title, 300);
      if device.Err? || title.Err? { return Err(TextTooLong); }
      if title.value == "" || args.severity !in ["info", "warning", "critical"] { return Err(BadTitleOrSeverity); }
      var key := if args.key == "" then "manual:" + draw.manual else args.key;
      var found := ActiveByKey(incidents, key);
      if found.Some? {
        var row := incidents[found.value];
        incidents := incidents[found.value := row.(updatedAt := draw.now, occurrences := row.occurrences + 1)];
        return Ok((row.id, false));
      }
      var inserted := Insert(incidents, Incident(draw.id, key, device.value, title.value, args.severity,
                                                 Open, "", draw.now, draw.now, None, None, 1));
      if inserted.Err? { return Err(inserted.error); }
      incidents := inserted.value;
      AddTimeline(draw.id, draw.now, args.actor, Opened, title.value);
      return Ok((draw.id, true));
    }

    method ChangeIncident(body: Change, actor: string, now: real) returns (r: Result<(), Error>)
      modifies this
      ensures (Tables(), r) == Incidents.ChangeIncident(old(Tables()), body, actor, now)
      ensures old(Inv(Tables())) ==> Inv(Tables())
    {
      ghost var before := Tables();
      if Inv(before) { ChangeKeepsInv(before, body, actor, now); }
      var id := Text(body.id, 64);
      if id.Err? { return Err(TextTooLong); }
      var verb := VerbOf(body.action);
      if verb.None? { return Err(UnknownAction); }
      var text := Text(body.message, 2000);
      if text.Err? { return Err(TextTooLong); }
      var found := ById(incidents, id.value);
      if found.None? { return Err(NotFound); }
      var message := text.value;
      var row := incidents[found.value];
      match verb.value {
        case Acknowledge =>
          if row.status != Open { return Err(NotOpen); }
          incidents := incidents[found.value := row.(status := Acknowledged, acknowledged := Some(now),
                                                     updatedAt := now)];
        case Resolve =>
          if row.status == Resolved { return Err(AlreadyResolved); }
          incidents := incidents[found.value := row.(status := Resolved, resolved := Some(now), updatedAt := now)];
        case Assign =>
          var owner := Text(body.owner, 160);
          if owner.Err? { return Err(TextTooLong); }
          message := owner.value;
          incidents := incidents[found.value := row.(owner := message, updatedAt := now)];
        case _ =>
          if message == "" { return Err(EmptyComment); }
          assert incidents[found.value := row] == incidents;
      }
      AddTimeline(row.id, now, actor, verb.value, message);
      return Ok(());
    }

    method RecordHealth(poll: Poll, now: real) returns (failures: nat, inWindow: bool)
      modifies this
      ensures Tables() == Incidents.RecordHealth(old(Tables()), poll, now)
      ensures failures == FailuresOf(Tables(), DeviceOf(poll.router))
      ensures inWindow == InMaintenance(maintenance, DeviceOf(poll.router), now)
    {
      var device := "router:" + poll.router;
      failures := 0;
      var success := Some(now);
      if !poll.ok {
        failures := if device in health then health[device].failures + 1 else 1;
        success := if device in health then health[device].lastSuccess else None;
      }
      health := health[device := Health(failures, success, now)];
      inWindow := device in maintenance && maintenance[device] > now;
    }

    method ObserveRouter(poll: Poll, now: real, draw: Draw) returns (r: Result<Operations.Observed, Error>)
      modifies this
      ensures (Tables(), r) == Operations.ObserveRouter(old(Tables()), poll, now, draw)
      ensures old(Inv(Tables())) ==> Inv(Tables())
    {
      ghost var before := Tables();
      if Inv(before) { Operations.ObserveKeepsInv(before, poll, now, draw); }
      var failures, inWindow := RecordHealth(poll, now);
      var key := "router-unreachable:" + poll.router;
      if poll.ok {
        var active := Operations.ActiveId(Tables(), key);
        if active.Some? {
          var changed := ChangeIncident(Change(active.value, "resolve", "Связь восстановлена", ""), "collector",
                                        draw.now);
          if changed.Err? { return Err(changed.error); }
          return Ok(Operations.NowResolved);
        }
      } else if !inWindow && failures >= 2 {
        var opened_ := OpenIncident(Operations.UnreachableArgs(poll), draw);
        if opened_.Err? { return Err(opened_.error); }
        if opened_.value.1 { return Ok(Operations.NowOpen); }
      }
      return Ok(Operations.Nothing);
    }

    /** One pass of the loop body of receive_alerts. */
    method HandleAlert(c: Operations.Checked, k: Operations.Setting, draw: Draw)
      returns (r: Result<Operations.Handled, Error>)
      modifies this
      ensures (Tables(), r) == Operations.HandleAlert(old(Tables()), c, k, draw)
    {
      var device := Operations.AlertDevice(c, k);
      var key := Operations.AlertKey(c, k);
      if c.firing {
        if device in k.windows && k.windows[device] > draw.now { return Ok(Operations.Ignored); }
        var opened_ := OpenIncident(OpenArgs(device, c.title, "critical", key, "alertmanager"), draw);
        if opened_.Err? { return Err(opened_.error); }
        return Ok(if opened_.value.1 then Operations.AlertOpened else Operations.Ignored);
      }
      var active := Operations.ActiveId(Tables(), key);
      var failing := Operations.Shared(c, k) && device in health && health[device].failures > 0;
      if active.None? || failing { return Ok(Operations.Ignored); }
      var changed := ChangeIncident(Change(active.value, "resolve", "Alertmanager: восстановление", ""),
                                    "alertmanager", draw.now);
      return Ok(if changed.Ok? then Operations.AlertResolved else Operations.Ignored);
    }

    /** A rejected batch changes nothing; an accepted one is handled alert by alert. */
    method ReceiveAlerts(alerts: seq<Operations.Alert>, k: Operations.Setting, draws: seq<Draw>)
      returns (r: Result<Operations.Outcome, Operations.AlertError>)
      requires |draws| >= |alerts|
      modifies this
      ensures (Tables(), r) == Operations.ReceiveAlerts(old(Tables()), alerts, k, draws)
      ensures r.Err? && !r.error.Failed? ==> Tables() == old(Tables())
    {
      if |alerts| > 100 { return Err(Operations.TooMany); }
      var validated: seq<Operations.Checked> := [];
      var i := 0;
      while i < |alerts|
        invariant 0 <= i <= |alerts| && Tables() == old(Tables())
        invariant Operations.CheckAlerts(alerts[..i]) == Ok(validated)
      {
        Prefix(alerts, i);
        var c := Operations.CheckAlert(alerts[i]);
        if c.Err? {
          FirstBad(alerts, i + 1);
          return Err(c.error);
        }
        validated := validated + [c.value];
        i := i + 1;
      }
      assert alerts[..i] == alerts;
      ghost var s0 := Tables();
      var outcome := Operations.NO_OUTCOME;
      i := 0;
      while i < |validated|
        invariant 0 <= i <= |validated| == |alerts|
        invariant Operations.HandleAlerts(s0, validated[..i], k, draws) == (Tables(), Ok(outcome))
      {
        Prefix(validated, i);
        var h := HandleAlert(validated[i], k, draws[i]);
        if h.Err? {
          StopsAt(s0, validated, k, draws, i + 1);
          return Err(Operations.Failed(h.error));
        }
        outcome := Operations.Count(outcome, h.value, validated[i].title);
        i := i + 1;
      }
      assert validated[..i] == validated;
      return Ok(outcome);
    }
  }

  lemma Prefix<T>(s: seq<T>, i: nat)
    requires i < |s|
    ensures s[..i + 1][..i] == s[..i] && s[..i + 1][i] == s[i] && |s[..i + 1]| == i + 1
  {
  }

  /** Validation reports the first alert that is not well formed. */
  lemma {:induction false} FirstBad(alerts: seq<Operations.Alert>, i: nat)
    requires i <= |alerts| && Operations.CheckAlerts(alerts[..i]).Err?
    ensures Operations.CheckAlerts(alerts) == Operations.CheckAlerts(alerts[..i])
    decreases |alerts| - i
  {
    if i == |alerts| {
      assert alerts[..i] == alerts;
    } else {
      Prefix(alerts, i);
      FirstBad(alerts, i + 1);
    }
  }

  /** An alert that raises ends the batch there, keeping what came before. */
  lemma {:induction false} StopsAt(s: Store, cs: seq<Operations.Checked>, k: Operations.Setting, draws: seq<Draw>,
                                   i: nat)
    requires i <= |cs| <= |draws| && Operations.HandleAlerts(s, cs[..i], k, draws).1.Err?
    ensures Operations.HandleAlerts(s, cs, k, draws) == Operations.HandleAlerts(s, cs[..i], k, draws)
    decreases |cs| - i
  {
    if i == |cs| {
      assert cs[..i] == cs;
    } else {
      Prefix(cs, i);
      StopsAt(s, cs, k, draws, i + 1);
    }
  }
}
