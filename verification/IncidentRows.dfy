/**
 What the transactions of netpulse/operations.py write, field by field: the row and the note of an opening, of
 a repeated event and of every change, the health row of a poll, and the window an operator saves.
 */
module IncidentRows {
  import opened Wrappers
  import opened Incidents
  import opened Operations

  // ---------- text() ----------

  predicate Blank(s: string) { forall c <- s :: IsSpace(c) }

  /** r is what is left of s without the white space around it. */
  predicate StripsTo(s: string, r: string)
  {
    (r != "" ==> !IsSpace(r[0]) && !IsSpace(r[|r| - 1])) && exists i :: 0 <= i <= |s| && StripsAt(s, r, i)
  }

  predicate StripsAt(s: string, r: string, i: int)
  {
    0 <= i <= |s| - |r| && s[i..i + |r|] == r && Blank(s[..i]) && Blank(s[i + |r|..])
  }

  lemma StripsEdges(s: string, r: string, i: nat)
    requires StripsAt(s, r, i)
    ensures forall k :: 0 <= k < i || i + |r| <= k < |s| ==> IsSpace(s[k])
    ensures r != "" ==> r[0] == s[i] && r[|r| - 1] == s[i + |r| - 1]
  {
    hide IsSpace;
    assert forall k :: 0 <= k < i ==> s[..i][k] == s[k];
    assert forall k :: i + |r| <= k < |s| ==> s[i + |r|..][k - (i + |r|)] == s[k];
    assert r != "" ==> s[i..i + |r|][0] == s[i] && s[i..i + |r|][|r| - 1] == s[i + |r| - 1];
  }

  lemma StripsTail(s: string, r: string)
    requires s != "" && IsSpace(s[0])
    ensures StripsTo(s, r) <==> StripsTo(s[1..], r)
  {
    hide IsSpace;
    if StripsTo(s, r) {
      var i :| 0 <= i <= |s| && StripsAt(s, r, i);
      StripsEdges(s, r, i);
      if i > 0 {
        assert s[..i] == [s[0]] + s[1..][..i - 1] && s[1..][i - 1..i - 1 + |r|] == s[i..i + |r|];
        assert s[1..][i - 1 + |r|..] == s[i + |r|..];
        assert StripsAt(s[1..], r, i - 1);
      } else {
        assert s[0..] == s && s[1..][0..] == s[1..] && s[1..][..0] == "" && s[1..][0..0] == "";
        assert StripsAt(s[1..], r, 0);
      }
    }
    if StripsTo(s[1..], r) {
      var i :| 0 <= i <= |s[1..]| && StripsAt(s[1..], r, i);
      assert s[..i + 1] == [s[0]] + s[1..][..i] && s[i + 1..i + 1 + |r|] == s[1..][i..i + |r|];
      assert s[i + 1 + |r|..] == s[1..][i + |r|..];
      assert StripsAt(s, r, i + 1);
    }
  }

  lemma StripsInit(s: string, r: string)
    requires s != "" && IsSpace(s[|s| - 1]) && !IsSpace(s[0])
    ensures StripsTo(s, r) <==> StripsTo(s[..|s| - 1], r)
  {
    hide IsSpace;
    var n := |s| - 1;
    var init := s[..n];
    if StripsTo(s, r) {
      var i :| 0 <= i <= |s| && StripsAt(s, r, i);
      var j := i + |r|;
      StripsEdges(s, r, i);
      assert i == 0 && j <= n;
      assert init[0..j] == s[0..j] && s[j..] == init[j..] + [s[n]] && init[..0] == "";
      assert StripsAt(init, r, 0);
    }
    if StripsTo(init, r) {
      var i :| 0 <= i <= |init| && StripsAt(init, r, i);
      var j := i + |r|;
      assert s[..i] == init[..i] && s[i..j] == init[i..j] && s[j..] == init[j..] + [s[n]];
      assert StripsAt(s, r, i);
    }
  }

  lemma StripsWhole(s: string, r: string)
    requires s != "" ==> !IsSpace(s[0]) && !IsSpace(s[|s| - 1])
    ensures StripsTo(s, r) <==> r == s
  {
    hide IsSpace;
    if StripsTo(s, r) {
      var i :| 0 <= i <= |s| && StripsAt(s, r, i);
      var j := i + |r|;
      StripsEdges(s, r, i);
      assert i == 0 && j == |s|;
      assert s[0..|s|] == s;
    }
    if r == s {
      assert s[0..|s|] == s && s[..0] == "" && s[|s|..] == "";
      assert StripsAt(s, r, 0);
    }
  }

  /** There is one such text, and Strip finds it. */
  lemma {:induction false} StripIff(s: string, r: string)
    ensures r == Strip(s) <==> StripsTo(s, r)
    decreases |s|
  {
    hide IsSpace, StripsTo;
    if s != "" && IsSpace(s[0]) {
      StripsTail(s, r);
      StripIff(s[1..], r);
    } else if s != "" && IsSpace(s[|s| - 1]) {
      StripsInit(s, r);
      StripIff(s[..|s| - 1], r);
    } else {
      StripsWhole(s, r);
    }
  }

  /** A note of at most so many characters begins what it was given. */
  lemma NoteIsPrefix(s: string, n: nat)
    ensures Take(s, n) <= s && |Take(s, n)| == if |s| < n then |s| else n
  {
  }

  // ---------- open_incident ----------

  /** Why open_incident refuses. */
  lemma OpenRefusals(s: Store, args: OpenArgs, draw: Draw)
    ensures var r := OpenIncident(s, args, draw).1;
            && (r == Err(TextTooLong) <==> |args.device| > 64 || |args.title| > 300)
            && (r == Err(BadTitleOrSeverity) <==> |args.device| <= 64 && |args.title| <= 300
                                                  && (Blank(args.title)
                                                      || args.severity !in {"info", "warning", "critical"}))
            && (r.Err? ==> r.error in {TextTooLong, BadTitleOrSeverity, DuplicateId, DuplicateActiveKey})
  {
    BlankIff(args.title);
  }

  lemma {:induction false} BlankIff(s: string)
    ensures Strip(s) == "" <==> Blank(s)
    decreases |s|
  {
    hide IsSpace;
    if s != "" {
      if IsSpace(s[0]) {
        BlankIff(s[1..]);
        assert s == [s[0]] + s[1..];
      } else {
        assert s[0] in s;
        NotBlank(s);
      }
    }
  }

  lemma NotBlank(s: string)
    requires s != "" && !IsSpace(s[0])
    ensures Strip(s) != ""
    decreases |s|
  {
    if IsSpace(s[|s| - 1]) { NotBlank(s[..|s| - 1]); }
  }

  /** What a created incident is: the row behind all others, and its first note behind all others. */
  lemma CreatedRow(s: Store, args: OpenArgs, draw: Draw)
    requires OpenIncident(s, args, draw).1.Ok? && OpenIncident(s, args, draw).1.value.1
    ensures var (t, r) := OpenIncident(s, args, draw);
            var n, m := |s.incidents|, |s.timeline|;
            && |t.incidents| == n + 1 && t.incidents[..n] == s.incidents
            && |t.timeline| == m + 1 && t.timeline[..m] == s.timeline
            && var row, note := t.incidents[n], t.timeline[m];
            && r.value.0 == row.id == draw.id
            && row.key == (if args.key == "" then "manual:" + draw.manual else args.key)
            && StripsTo(args.device, row.device) && StripsTo(args.title, row.title) && row.severity == args.severity
            && row.status == Open && row.owner == "" && row.occurrences == 1
            && row.openedAt == row.updatedAt == draw.now && row.acknowledged.None? && row.resolved.None?
            && note.incident == draw.id && note.ts == draw.now && note.verb == Opened && note.message == row.title
            && note.actor <= args.actor && |note.actor| == if |args.actor| < 160 then |args.actor| else 160
  {
    hide StripsTo, Strip, ById, ActiveByKey, IsSpace;
    StripIff(args.device, Strip(args.device));
    StripIff(args.title, Strip(args.title));
  }

  /** What a repeated event leaves of the active incident of its key: all but its last time and its count. */
  lemma RepeatedRow(s: Store, args: OpenArgs, draw: Draw)
    requires OpenIncident(s, args, draw).1.Ok? && !OpenIncident(s, args, draw).1.value.1
    ensures var (t, r) := OpenIncident(s, args, draw);
            var key := if args.key == "" then "manual:" + draw.manual else args.key;
            && t.timeline == s.timeline && |t.incidents| == |s.incidents|
            && exists i :: 0 <= i < |s.incidents| && Repeats(s.incidents[i], t.incidents[i], key, draw.now)
                           && r.value.0 == s.incidents[i].id
                           && forall j :: 0 <= j < |s.incidents| && j != i ==> t.incidents[j] == s.incidents[j]
  {
    var t := OpenIncident(s, args, draw).0;
    var i := ActiveByKey(s.incidents, KeyOf(args, draw)).value;
    assert Repeats(s.incidents[i], t.incidents[i], KeyOf(args, draw), draw.now);
  }

  predicate Repeats(a: Incident, b: Incident, key: string, now: real)
  {
    && a.key == key && a.status != Resolved && b.updatedAt == now && b.occurrences == a.occurrences + 1
    && b.id == a.id && b.key == a.key && b.device == a.device && b.title == a.title && b.severity == a.severity
    && b.status == a.status && b.owner == a.owner && b.openedAt == a.openedAt
    && b.acknowledged == a.acknowledged && b.resolved == a.resolved
  }

  // ---------- change_incident ----------

  /** The row of a change before and after, and the note: by the name of the action. */
  predicate Changes(a: Incident, b: Incident, note: Entry, body: Change, actor: string, now: real)
  {
    && StripsTo(body.id, a.id) && note.incident == a.id && note.ts == now
    && note.actor <= actor && |note.actor| == (if |actor| < 160 then |actor| else 160)
    && b.id == a.id && b.key == a.key && b.device == a.device && b.title == a.title && b.severity == a.severity
    && b.openedAt == a.openedAt && b.occurrences == a.occurrences
    && b.updatedAt == (if body.action == "comment" then a.updatedAt else now)
    && (b.status == if body.action == "acknowledge" then Acknowledged
                    else if body.action == "resolve" then Resolved else a.status)
    && b.acknowledged == (if body.action == "acknowledge" then Some(now) else a.acknowledged)
    && b.resolved == (if body.action == "resolve" then Some(now) else a.resolved)
    && (if body.action == "assign" then StripsTo(body.owner, b.owner) && note.message == b.owner
        else b.owner == a.owner && StripsTo(body.message, note.message))
    && (match body.action
        case "acknowledge" => note.verb == Acknowledge
        case "resolve" => note.verb == Resolve
        case "assign" => note.verb == Assign
        case _ => note.verb == Comment)
  }

  /** What a completed change writes: one row, and one note of the actor, the action and the message. */
  lemma ChangedRowIs(s: Store, body: Change, actor: string, now: real)
    requires ChangeIncident(s, body, actor, now).1.Ok?
    ensures var t := ChangeIncident(s, body, actor, now).0;
            var m := |s.timeline|;
            && |t.timeline| == m + 1 && t.timeline[..m] == s.timeline && |t.incidents| == |s.incidents|
            && exists i :: 0 <= i < |s.incidents|
                           && Changes(s.incidents[i], t.incidents[i], t.timeline[m], body, actor, now)
                           && forall j :: 0 <= j < |s.incidents| && j != i ==> t.incidents[j] == s.incidents[j]
  {
    hide Strip, ById, StripsTo;
    var t := ChangeIncident(s, body, actor, now).0;
    StripIff(body.id, Strip(body.id));
    StripIff(body.message, Strip(body.message));
    StripIff(body.owner, Strip(body.owner));
    var i := ById(s.incidents, Strip(body.id)).value;
    assert Changes(s.incidents[i], t.incidents[i], t.timeline[|s.timeline|], body, actor, now);
  }

  /** The row a change is about. */
  predicate Named(rows: seq<Incident>, i: nat, id: string) { i < |rows| && StripsTo(id, rows[i].id) }

  /** What a change demands of the row it is about. */
  predicate Admits(row: Incident, body: Change)
  {
    match body.action
    case "acknowledge" => row.status == Open
    case "resolve" => row.status != Resolved
    case "assign" => |body.owner| <= 160
    case "comment" => !Blank(body.message)
    case _ => false
  }

  /** Exactly when a change is made: texts within their limits, one of four actions, and a row that admits it. */
  lemma ChangeOkIff(s: Store, body: Change, actor: string, now: real)
    requires UniqueIds(s.incidents)
    ensures ChangeIncident(s, body, actor, now).1.Ok?
       <==> |body.id| <= 64 && |body.message| <= 2000
            && exists i: nat :: Named(s.incidents, i, body.id) && Admits(s.incidents[i], body)
  {
    hide Strip, StripsTo, Blank;
    BlankIff(body.message);
    var id := Strip(body.id);
    StripIff(body.id, id);
    forall i: nat | Named(s.incidents, i, body.id) ensures s.incidents[i].id == id {
      StripIff(body.id, s.incidents[i].id);
    }
    var found := ById(s.incidents, id);
    if found.Some? { assert Named(s.incidents, found.value, body.id); }
  }

  /** The note of a resolution. */
  lemma ResolveNotes(s: Store, id: Uuid, message: string, actor: string, now: real)
    requires ChangeIncident(s, ResolveChange(id, message), actor, now).1.Ok? && |actor| <= 160 && |message| <= 2000
    requires Strip(message) == message
    ensures ChangeIncident(s, ResolveChange(id, message), actor, now).0.timeline
         == s.timeline + [Entry(id, now, actor, Resolve, message)]
  {
    hide ChangeIncident, StripsTo, Strip;
    var body := ResolveChange(id, message);
    UuidIsPlain(id);
    ChangedRowIs(s, body, actor, now);
    var t, m := ChangeIncident(s, body, actor, now).0, |s.timeline|;
    var i :| 0 <= i < |s.incidents| && Changes(s.incidents[i], t.incidents[i], t.timeline[m], body, actor, now);
    StripIff(id, s.incidents[i].id);
    StripIff(message, t.timeline[m].message);
    assert t.timeline[m] == Entry(id, now, actor, Resolve, message);
    assert t.timeline == t.timeline[..m] + [t.timeline[m]];
  }

  // ---------- the health row and the window ----------

  /** The row a poll leaves: the time of the poll, and of the last one that answered. */
  lemma HealthRow(s: Store, poll: Poll, now: real)
    ensures var t := RecordHealth(s, poll, now);
            var device := "router:" + poll.router;
            && device in t.health && t.health[device].lastCheck == now
            && t.health[device].lastSuccess == (if poll.ok then Some(now)
                                                else if device in s.health then s.health[device].lastSuccess else None)
            && (forall d <- s.health :: d in t.health && (d != device ==> t.health[d] == s.health[d]))
            && (forall d <- t.health :: d == device || d in s.health)
            && t.incidents == s.incidents && t.timeline == s.timeline && t.maintenance == s.maintenance
  {
  }

  /** When a router was last polled, and when it last answered, over a serial run. */
  function LastPolled(ops: seq<Op>, router: string): Option<real>
  {
    if ops == [] then None
    else
      match ops[|ops| - 1]
      case OpObserve(poll, now, _) => if poll.router == router then Some(now) else LastPolled(ops[..|ops| - 1], router)
      case _ => LastPolled(ops[..|ops| - 1], router)
  }

  function LastAnswered(ops: seq<Op>, router: string): Option<real>
  {
    if ops == [] then None
    else
      match ops[|ops| - 1]
      case OpObserve(poll, now, _) =>
        if poll.router == router && poll.ok then Some(now) else LastAnswered(ops[..|ops| - 1], router)
      case _ => LastAnswered(ops[..|ops| - 1], router)
  }

  /** After any serial run the health row of a router tells when it was last polled and when it last answered. */
  lemma {:induction false} HealthIsHistory(ops: seq<Op>, router: string)
    ensures var health := RunOps(ops).health;
            var device := "router:" + router;
            && (device in health <==> LastPolled(ops, router).Some?)
            && (device in health ==> Some(health[device].lastCheck) == LastPolled(ops, router)
                                     && health[device].lastSuccess == LastAnswered(ops, router))
            && (LastPolled(ops, router).None? ==> LastAnswered(ops, router).None?)
  {
    if ops != [] {
      var op := ops[|ops| - 1];
      HealthIsHistory(ops[..|ops| - 1], router);
      hide RunOp;
      RunOpHealth(RunOps(ops[..|ops| - 1]), op);
      if op.OpObserve? {
        assert DeviceOf(op.poll.router)[|"router:"|..] == op.poll.router && DeviceOf(router)[|"router:"|..] == router;
      }
    }
  }

  /** A window is saved exactly when it ends neither before the epoch nor later than in seven days. */
  lemma WindowSavedIff(s: Store, device: string, until: real, now: real)
    ensures var t := SaveMaintenance(s, device, until, now);
            && t == s.(maintenance := t.maintenance)
            && (0.0 <= until <= now + 7.0 * 86400.0 ==> t.maintenance == s.maintenance[device := until])
            && (!(0.0 <= until <= now + 7.0 * 86400.0) ==> t.maintenance == s.maintenance)
  {
  }

  // ---------- what the collector writes ----------

  /** The incident a collector opens is that of its router. */
  lemma CollectorRow(s: Store, poll: Poll, now: real, draw: Draw)
    requires ObserveRouter(s, poll, now, draw).1 == Ok(NowOpen)
    ensures var t := ObserveRouter(s, poll, now, draw).0;
            var n, m := |s.incidents|, |s.timeline|;
            && |t.incidents| == n + 1 && t.incidents[..n] == s.incidents && |t.timeline| == m + 1
            && var row := t.incidents[n];
            && row.key == "router-unreachable:" + poll.router && StripsTo("router:" + poll.router, row.device)
            && StripsTo("Нет связи: " + poll.name, row.title) && row.severity == "critical"
            && row.openedAt == draw.now && t.timeline[m].actor == "system"
  {
    hide OpenIncident, ChangeIncident, StripsTo, ActiveId;
    if !poll.ok { CreatedRow(RecordHealth(s, poll, now), UnreachableArgs(poll), draw); }
  }

  /** The incident a poll that answered closes is noted as closed by the collector. */
  lemma CollectorCloses(s: Store, poll: Poll, now: real, draw: Draw)
    requires Inv(s) && ObserveRouter(s, poll, now, draw).1 == Ok(NowResolved)
    ensures var t := ObserveRouter(s, poll, now, draw).0;
            var m := |s.timeline|;
            && poll.ok && |t.timeline| == m + 1 && t.timeline[..m] == s.timeline
            && Some(t.timeline[m].incident) == ActiveId(s, "router-unreachable:" + poll.router)
            && t.timeline[m].actor == "collector" && t.timeline[m].verb == Resolve
            && t.timeline[m].message == "Связь восстановлена" && t.timeline[m].ts == draw.now
  {
    hide OpenIncident, ChangeIncident, Inv, ActiveByKey;
    var h, message := RecordHealth(s, poll, now), "Связь восстановлена";
    var active := ActiveId(h, RouterKey(poll.router));
    if poll.ok && active.Some? { ResolveNotes(h, active.value, message, "collector", draw.now); }
  }
}
