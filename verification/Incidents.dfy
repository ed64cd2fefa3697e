/**
 The incident store of netpulse/operations.py: four tables and the transactions
 that change them.  Each function below is one `BEGIN IMMEDIATE ... commit` block;
 an exception rolls the block back, so an error result leaves the store as it was.
 */
module Incidents {
  import opened Wrappers

  // ---------- values ----------

  predicate IsHex(c: char) { '0' <= c <= '9' || 'a' <= c <= 'f' }

  const ZERO_UUID := "00000000000000000000000000000000"

  /** uuid4().hex */
  type Uuid = s: string | |s| == 32 && forall i :: 0 <= i < |s| ==> IsHex(s[i]) witness ZERO_UUID

  datatype Status = Open | Acknowledged | Resolved

  datatype Incident = Incident(id: Uuid, key: string, device: string, title: string, severity: string,
                               status: Status, owner: string, openedAt: real, updatedAt: real,
                               acknowledged: Option<real>, resolved: Option<real>, occurrences: nat)

  datatype Verb = Opened | Acknowledge | Resolve | Assign | Comment

  datatype Entry = Entry(incident: string, ts: real, actor: string, verb: Verb, message: string)

  datatype Health = Health(failures: nat, lastSuccess: Option<real>, lastCheck: real)

  datatype Store = Store(incidents: seq<Incident>, timeline: seq<Entry>,
                         health: map<string, Health>, maintenance: map<string, real>)

  const EMPTY := Store([], [], map[], map[])

  datatype Error = TextTooLong | BadTitleOrSeverity | UnknownAction | NotFound | NotOpen
                 | AlreadyResolved | EmptyComment | DuplicateId | DuplicateActiveKey

  // ---------- text() ----------

  /** The characters Python's str.strip removes. */
  predicate IsSpace(c: char)
  {
    var n := c as int;
    0x09 <= n <= 0x0D || 0x1C <= n <= 0x20 || n == 0x85 || n == 0xA0 || n == 0x1680
    || 0x2000 <= n <= 0x200A || n == 0x2028 || n == 0x2029 || n == 0x202F || n == 0x205F || n == 0x3000
  }

  function Strip(s: string): (r: string)
    ensures |r| <= |s|
    ensures s != [] && !IsSpace(s[0]) && !IsSpace(s[|s| - 1]) ==> r == s
    decreases |s|
  {
    if s == [] then s
    else if IsSpace(s[0]) then Strip(s[1..])
    else if IsSpace(s[|s| - 1]) then Strip(s[..|s| - 1])
    else s
  }

  lemma StripTwice(s: string)
    ensures Strip(Strip(s)) == Strip(s)
    decreases |s|
  {
    if s != [] {
      if IsSpace(s[0]) { StripTwice(s[1..]); }
      else if IsSpace(s[|s| - 1]) { StripTwice(s[..|s| - 1]); }
    }
  }

  function Text(value: string, limit: nat): (r: Result<string, Error>)
    ensures r.Ok? <==> |value| <= limit
    ensures r.Ok? ==> |r.value| <= limit
  {
    if |value| > limit then Err(TextTooLong) else Ok(Strip(value))
  }

  function Take(s: string, n: nat): string { if |s| <= n then s else s[..n] }

  // ---------- tables ----------

  predicate IsActive(row: Incident) { row.status != Resolved }

  /** SELECT ... WHERE id=?, as a row number. */
  function ById(rows: seq<Incident>, id: string): (r: Option<nat>)
    ensures r.Some? ==> r.value < |rows| && rows[r.value].id == id
    ensures r.None? ==> forall i :: 0 <= i < |rows| ==> rows[i].id != id
  {
    if rows == [] then None
    else if rows[|rows| - 1].id == id then Some(|rows| - 1)
    else ById(rows[..|rows| - 1], id)
  }

  /** SELECT ... WHERE event_key=? AND status IN ('open','acknowledged'), as a row number. */
  function ActiveByKey(rows: seq<Incident>, key: string): (r: Option<nat>)
    ensures r.Some? ==> r.value < |rows| && rows[r.value].key == key && IsActive(rows[r.value])
    ensures r.None? ==> forall i :: 0 <= i < |rows| ==> !(rows[i].key == key && IsActive(rows[i]))
  {
    if rows == [] then None
    else if rows[|rows| - 1].key == key && IsActive(rows[|rows| - 1]) then Some(|rows| - 1)
    else ActiveByKey(rows[..|rows| - 1], key)
  }

  /** INSERT INTO incidents under the primary key and the partial unique index. */
  function Insert(rows: seq<Incident>, row: Incident): Result<seq<Incident>, Error>
  {
    if ById(rows, row.id).Some? then Err(DuplicateId)
    else if IsActive(row) && ActiveByKey(rows, row.key).Some? then Err(DuplicateActiveKey)
    else Ok(rows + [row])
  }

  function Note(id: string, ts: real, actor: string, verb: Verb, message: string): Entry
  {
    Entry(id, ts, Take(actor, 160), verb, Take(message, 2000))
  }

  // ---------- open_incident ----------

  datatype OpenArgs = OpenArgs(device: string, title: string, severity: string, key: string, actor: string)

  /** The values open_incident draws from uuid4 and from the clock. */
  datatype Draw = Draw(id: Uuid, manual: Uuid, now: real)

  function KeyOf(args: OpenArgs, draw: Draw): string
  {
    if args.key == "" then "manual:" + draw.manual else args.key
  }

  predicate ValidOpen(args: OpenArgs)
  {
    |args.device| <= 64 && |args.title| <= 300 && Strip(args.title) != ""
    && args.severity in ["info", "warning", "critical"]
  }

  function OpenIncident(s: Store, args: OpenArgs, draw: Draw): (Store, Result<(Uuid, bool), Error>)
  {
    if Text(args.device, 64).Err? || Text(args.title, 300).Err? then (s, Err(TextTooLong))
    else if !ValidOpen(args) then (s, Err(BadTitleOrSeverity))
    else
      var key := KeyOf(args, draw);
      match ActiveByKey(s.incidents, key)
      case Some(i) =>
        var row := s.incidents[i];
        (s.(incidents := s.incidents[i := row.(updatedAt := draw.now, occurrences := row.occurrences + 1)]),
         Ok((row.id, false)))
      case None =>
        var title := Strip(args.title);
        match Insert(s.incidents, Incident(draw.id, key, Strip(args.device), title, args.severity,
                                           Open, "", draw.now, draw.now, None, None, 1))
        case Err(e) => (s, Err(e))
        case Ok(rows) =>
          (s.(incidents := rows, timeline := s.timeline + [Note(draw.id, draw.now, args.actor, Opened, title)]),
           Ok((draw.id, true)))
  }

  // ---------- change_incident ----------

  datatype Change = Change(id: string, action: string, message: string, owner: string)

  function VerbOf(action: string): Option<Verb>
  {
    if action == "acknowledge" then Some(Acknowledge)
    else if action == "resolve" then Some(Resolve)
    else if action == "assign" then Some(Assign)
    else if action == "comment" then Some(Comment)
    else None
  }

  /** The row and the timeline message the branch for `verb` writes. */
  function ChangeRow(row: Incident, verb: Verb, message: string, owner: string, now: real)
    : Result<(Incident, string), Error>
  {
    match verb
    case Acknowledge =>
      if row.status != Open then Err(NotOpen)
      else Ok((row.(status := Acknowledged, acknowledged := Some(now), updatedAt := now), message))
    case Resolve =>
      if row.status == Resolved then Err(AlreadyResolved)
      else Ok((row.(status := Resolved, resolved := Some(now), updatedAt := now), message))
    case Assign =>
      (match Text(owner, 160)
       case Err(e) => Err(e)
       case Ok(o) => Ok((row.(owner := o, updatedAt := now), o)))
    case _ =>
      if message == "" then Err(EmptyComment) else Ok((row, message))
  }

  function ChangeIncident(s: Store, body: Change, actor: string, now: real): (Store, Result<(), Error>)
  {
    if Text(body.id, 64).Err? then (s, Err(TextTooLong))
    else if VerbOf(body.action).None? then (s, Err(UnknownAction))
    else if Text(body.message, 2000).Err? then (s, Err(TextTooLong))
    else
      match ById(s.incidents, Strip(body.id))
      case None => (s, Err(NotFound))
      case Some(i) =>
        var verb := VerbOf(body.action).value;
        match ChangeRow(s.incidents[i], verb, Strip(body.message), body.owner, now)
        case Err(e) => (s, Err(e))
        case Ok((row, message)) =>
          (s.(incidents := s.incidents[i := row],
              timeline := s.timeline + [Note(row.id, now, actor, verb, message)]), Ok(()))
  }

  // ---------- the health transaction and the maintenance window ----------

  datatype Poll = Poll(router: string, name: string, ok: bool)

  function DeviceOf(router: string): string { "router:" + router }

  function FailuresOf(s: Store, device: string): nat
  {
    if device in s.health then s.health[device].failures else 0
  }

  function RecordHealth(s: Store, poll: Poll, now: real): Store
  {
    var device := DeviceOf(poll.router);
    var failures := if poll.ok then 0 else FailuresOf(s, device) + 1;
    var success := if poll.ok then Some(now)
                   else if device in s.health then s.health[device].lastSuccess else None;
    s.(health := s.health[device := Health(failures, success, now)])
  }

  predicate InMaintenance(windows: map<string, real>, device: string, now: real)
  {
    device in windows && windows[device] > now
  }

  function SaveMaintenance(s: Store, device: string, until: real, now: real): Store
  {
    if until < 0.0 || until > now + 604800.0 then s else s.(maintenance := s.maintenance[device := until])
  }

  // ---------- replay of the timeline ----------

  /** What the timeline of one incident says about it. */
  datatype Progress = Unopened | Broken | Known(status: Status, owner: string)

  function Advance(p: Progress, e: Entry): Progress
  {
    match e.verb
    case Opened => if p == Unopened then Known(Open, "") else Broken
    case Acknowledge => if p.Known? && p.status == Open then p.(status := Acknowledged) else Broken
    case Resolve => if p.Known? && p.status != Resolved then p.(status := Resolved) else Broken
    case Assign => if p.Known? then p.(owner := e.message) else Broken
    case Comment => if p.Known? then p else Broken
  }

  function Replay(timeline: seq<Entry>, id: string): Progress
  {
    if timeline == [] then Unopened
    else
      var before := Replay(timeline[..|timeline| - 1], id);
      var last := timeline[|timeline| - 1];
      if last.incident == id then Advance(before, last) else before
  }

  // ---------- the invariant ----------

  predicate UniqueIds(rows: seq<Incident>)
  {
    forall i, j :: 0 <= i < j < |rows| ==> rows[i].id != rows[j].id
  }

  predicate UniqueActiveKeys(rows: seq<Incident>)
  {
    forall i, j :: 0 <= i < j < |rows| && IsActive(rows[i]) && IsActive(rows[j]) ==> rows[i].key != rows[j].key
  }

  /** Status and owner of every row are what replaying its timeline gives. */
  predicate Replays(s: Store)
  {
    forall i :: 0 <= i < |s.incidents| ==>
      Replay(s.timeline, s.incidents[i].id) == Known(s.incidents[i].status, s.incidents[i].owner)
  }

  predicate NoOrphans(s: Store)
  {
    forall e :: e in s.timeline ==> ById(s.incidents, e.incident).Some?
  }

  /** The times kept in a row are those its status calls for; it has occurred. */
  predicate StampOk(row: Incident)
  {
    && (row.resolved.Some? <==> row.status == Resolved)
    && (row.status == Open ==> row.acknowledged.None?) && (row.status == Acknowledged ==> row.acknowledged.Some?)
    && row.occurrences >= 1
  }

  predicate Stamped(rows: seq<Incident>)
  {
    forall i :: 0 <= i < |rows| ==> StampOk(rows[i])
  }

  predicate Inv(s: Store)
  {
    Stamped(s.incidents) && UniqueIds(s.incidents) && UniqueActiveKeys(s.incidents) && Replays(s) && NoOrphans(s)
  }

  lemma {:induction false} ReplayAppend(timeline: seq<Entry>, e: Entry, id: string)
    ensures Replay(timeline + [e], id)
         == if e.incident == id then Advance(Replay(timeline, id), e) else Replay(timeline, id)
  {
    assert (timeline + [e])[..|timeline|] == timeline;
  }

  lemma {:induction false} ReplayAbsent(timeline: seq<Entry>, id: string)
    requires forall e :: e in timeline ==> e.incident != id
    ensures Replay(timeline, id) == Unopened
  {
    if timeline != [] {
      ReplayAbsent(timeline[..|timeline| - 1], id);
    }
  }

  lemma ByIdFinds(rows: seq<Incident>, i: nat)
    requires UniqueIds(rows) && i < |rows|
    ensures ById(rows, rows[i].id) == Some(i)
  {
  }

  lemma UuidIsPlain(id: Uuid)
    ensures Text(id, 64) == Ok(id)
  {
    assert IsHex(id[0]) && IsHex(id[31]);
  }

  /** Every row of a is still in b, at its place. */
  predicate RowsStay(a: seq<Incident>, b: seq<Incident>)
  {
    |a| <= |b| && forall k :: 0 <= k < |a| ==> b[k].id == a[k].id
  }

  lemma IdStays(a: seq<Incident>, b: seq<Incident>, id: string)
    requires RowsStay(a, b) && ById(a, id).Some?
    ensures ById(b, id).Some?
  {
    var k := ById(a, id).value;
    assert b[k].id == id;
  }

  lemma OrphansStayNone(s: Store, t: Store)
    requires NoOrphans(s) && RowsStay(s.incidents, t.incidents)
    requires forall e :: e in t.timeline ==> e in s.timeline || ById(t.incidents, e.incident).Some?
    ensures NoOrphans(t)
  {
    hide ById, RowsStay;
    forall e | e in t.timeline && e in s.timeline ensures ById(t.incidents, e.incident).Some? {
      IdStays(s.incidents, t.incidents, e.incident);
    }
  }

  /** The rows an entry does not speak of keep what their timeline says. */
  lemma ReplaysAfter(s: Store, t: Store, e: Entry)
    requires t.timeline == s.timeline + [e]
    requires forall j :: 0 <= j < |t.incidents| && t.incidents[j].id != e.incident ==>
               Replay(s.timeline, t.incidents[j].id) == Known(t.incidents[j].status, t.incidents[j].owner)
    requires forall j :: 0 <= j < |t.incidents| && t.incidents[j].id == e.incident ==>
               Advance(Replay(s.timeline, e.incident), e) == Known(t.incidents[j].status, t.incidents[j].owner)
    ensures Replays(t)
  {
    hide Advance, Replay;
    forall j | 0 <= j < |t.incidents|
      ensures Replay(t.timeline, t.incidents[j].id) == Known(t.incidents[j].status, t.incidents[j].owner)
    {
      ReplayAppend(s.timeline, e, t.incidents[j].id);
    }
  }

  /** One row replaced and one entry about it appended: the shape of every change. */
  lemma RowChanged(s: Store, t: Store, i: nat, row: Incident, e: Entry)
    requires Inv(s) && i < |s.incidents| && row.id == s.incidents[i].id && row.key == s.incidents[i].key
    requires t.incidents == s.incidents[i := row] && t.timeline == s.timeline + [e]
    requires e.incident == row.id
    requires StampOk(row) && (IsActive(row) ==> IsActive(s.incidents[i]))
    requires Advance(Known(s.incidents[i].status, s.incidents[i].owner), e) == Known(row.status, row.owner)
    ensures Inv(t)
  {
    hide StampOk, NoOrphans, ById, Advance, Replay;
    ReplaysAfter(s, t, e);
    RowFound(t.incidents, i);
    OrphansStayNone(s, t);
  }

  lemma RowFound(rows: seq<Incident>, i: nat)
    requires i < |rows|
    ensures ById(rows, rows[i].id).Some?
  {
  }

  /** A row touched in fields the timeline does not speak of. */
  lemma RowTouched(s: Store, t: Store, i: nat, row: Incident)
    requires Inv(s) && i < |s.incidents| && StampOk(row)
    requires t.incidents == s.incidents[i := row] && t.timeline == s.timeline
    requires row.id == s.incidents[i].id && row.key == s.incidents[i].key
    requires row.status == s.incidents[i].status && row.owner == s.incidents[i].owner
    ensures Inv(t)
  {
    hide StampOk, NoOrphans, ById, Replay;
    OrphansStayNone(s, t);
  }

  /** A row inserted together with its first timeline entry. */
  lemma RowInserted(s: Store, t: Store, row: Incident, e: Entry)
    requires Inv(s) && Insert(s.incidents, row) == Ok(t.incidents) && StampOk(row) && row.status == Open
             && row.owner == ""
    requires t.timeline == s.timeline + [e] && e.incident == row.id && e.verb == Opened
    ensures Inv(t)
  {
    InsertedRows(s.incidents, row);
    ReplayUnknown(s, row.id);
    RowFound(t.incidents, |s.incidents|);
    hide Insert, StampOk, UniqueIds, UniqueActiveKeys, NoOrphans, ById, Replay;
    ReplaysAfter(s, t, e);
    OrphansStayNone(s, t);
  }

  lemma InsertedRows(rows: seq<Incident>, row: Incident)
    requires UniqueIds(rows) && UniqueActiveKeys(rows) && Insert(rows, row).Ok?
    ensures Insert(rows, row).value == rows + [row] && ById(rows, row.id).None?
    ensures UniqueIds(rows + [row]) && UniqueActiveKeys(rows + [row])
  {
  }

  lemma ReplayUnknown(s: Store, id: string)
    requires NoOrphans(s) && ById(s.incidents, id).None?
    ensures Replay(s.timeline, id) == Unopened
  {
    ReplayAbsent(s.timeline, id);
  }

  lemma OpenKeepsInv(s: Store, args: OpenArgs, draw: Draw)
    requires Inv(s)
    ensures Inv(OpenIncident(s, args, draw).0)
    ensures OpenIncident(s, args, draw).1 != Err(DuplicateActiveKey)
  {
    var (t, r) := OpenIncident(s, args, draw);
    if r.Ok? && r.value.1 {
      RowInserted(s, t, t.incidents[|s.incidents|], t.timeline[|s.timeline|]);
    } else if r.Ok? {
      var i := ActiveByKey(s.incidents, KeyOf(args, draw)).value;
      RowTouched(s, t, i, t.incidents[i]);
    }
  }

  lemma ChangeKeepsInv(s: Store, body: Change, actor: string, now: real)
    requires Inv(s)
    ensures Inv(ChangeIncident(s, body, actor, now).0)
  {
    hide Strip, Take, ChangeRow, Advance, StampOk, ById, UniqueIds, UniqueActiveKeys, Replays, NoOrphans;
    var (t, r) := ChangeIncident(s, body, actor, now);
    if r.Ok? {
      var i := ById(s.incidents, Strip(body.id)).value;
      assert StampOk(s.incidents[i]);
      ChangedRow(s.incidents[i], VerbOf(body.action).value, Strip(body.message), body.owner, actor, now);
      RowChanged(s, t, i, t.incidents[i], t.timeline[|s.timeline|]);
    }
  }

  /** What a change writes into a row is what the entry it notes says of it. */
  lemma ChangedRow(row: Incident, verb: Verb, message: string, owner: string, actor: string, now: real)
    requires verb != Opened && StampOk(row) && |message| <= 2000 && ChangeRow(row, verb, message, owner, now).Ok?
    ensures var (changed, note) := ChangeRow(row, verb, message, owner, now).value;
            && changed.id == row.id && changed.key == row.key && StampOk(changed)
            && (IsActive(changed) ==> IsActive(row))
            && Advance(Known(row.status, row.owner), Note(row.id, now, actor, verb, note))
                 == Known(changed.status, changed.owner)
  {
    hide Strip;
  }

  lemma HealthKeepsInv(s: Store, poll: Poll, now: real)
    requires Inv(s)
    ensures Inv(RecordHealth(s, poll, now))
  {
  }

  lemma WindowKeepsInv(s: Store, device: string, until: real, now: real)
    requires Inv(s)
    ensures Inv(SaveMaintenance(s, device, until, now))
  {
  }

  /** A comment or change of an incident that is not there, or not allowed, changes nothing; none touches health. */
  lemma ChangeFrame(s: Store, body: Change, actor: string, now: real)
    ensures var (t, r) := ChangeIncident(s, body, actor, now);
            (r.Err? ==> t == s) && t.health == s.health && t.maintenance == s.maintenance
            && |t.incidents| == |s.incidents|
  {
  }

  lemma OpenFrame(s: Store, args: OpenArgs, draw: Draw)
    ensures var (t, r) := OpenIncident(s, args, draw);
            (r.Err? ==> t == s) && t.health == s.health && t.maintenance == s.maintenance
            && |t.incidents| == |s.incidents| + (if r.Ok? && r.value.1 then 1 else 0)
  {
  }

  /** Exactly when open_incident creates: valid arguments, no active incident of the key, an unused id. */
  lemma OpenCreatesIff(s: Store, args: OpenArgs, draw: Draw)
    ensures var r := OpenIncident(s, args, draw).1;
            r.Ok? && r.value.1 <==> ValidOpen(args) && ActiveByKey(s.incidents, KeyOf(args, draw)).None?
                                    && ById(s.incidents, draw.id).None?
  {
  }

  /** The created incident is the active one of its key. */
  lemma CreatedIsActive(s: Store, args: OpenArgs, draw: Draw)
    requires OpenIncident(s, args, draw).1 == Ok((draw.id, true))
    ensures var t := OpenIncident(s, args, draw).0;
            ActiveByKey(t.incidents, KeyOf(args, draw)) == Some(|s.incidents|)
            && t.incidents[|s.incidents|].id == draw.id
  {
  }

  // ---------- resolved is final ----------

  /** Every incident of s is still in t under its key, and one resolved in s is resolved in t. */
  predicate Extends(s: Store, t: Store)
  {
    |s.incidents| <= |t.incidents|
    && forall i :: 0 <= i < |s.incidents| ==>
         t.incidents[i].id == s.incidents[i].id && t.incidents[i].key == s.incidents[i].key
         && (s.incidents[i].status == Resolved ==> t.incidents[i].status == Resolved)
         && s.incidents[i].occurrences <= t.incidents[i].occurrences
  }

  lemma OpenExtends(s: Store, args: OpenArgs, draw: Draw)
    ensures Extends(s, OpenIncident(s, args, draw).0)
  {
  }

  lemma ChangeExtends(s: Store, body: Change, actor: string, now: real)
    ensures Extends(s, ChangeIncident(s, body, actor, now).0)
  {
    hide Strip, ById, Take;
  }

  // ---------- counting ----------

  datatype Measure = Occurrences(key: string) | Actives(key: string)

  function Weight(m: Measure, row: Incident): nat
  {
    if row.key != m.key then 0
    else match m
      case Occurrences(_) => row.occurrences
      case Actives(_) => if IsActive(row) then 1 else 0
  }

  function Total(m: Measure, rows: seq<Incident>): nat
  {
    if rows == [] then 0 else Total(m, rows[..|rows| - 1]) + Weight(m, rows[|rows| - 1])
  }

  lemma {:induction false} TotalUpdate(m: Measure, rows: seq<Incident>, i: nat, row: Incident)
    requires i < |rows|
    ensures Total(m, rows[i := row]) == Total(m, rows) - Weight(m, rows[i]) + Weight(m, row)
  {
    var init := rows[..|rows| - 1];
    if i == |rows| - 1 {
      assert rows[i := row][..|rows| - 1] == init;
    } else {
      assert rows[i := row][..|rows| - 1] == init[i := row];
      TotalUpdate(m, init, i, row);
    }
  }

  lemma TotalAppend(m: Measure, rows: seq<Incident>, row: Incident)
    ensures Total(m, rows + [row]) == Total(m, rows) + Weight(m, row)
  {
    assert (rows + [row])[..|rows|] == rows;
  }

  lemma {:induction false} ActiveTotal(rows: seq<Incident>, key: string)
    requires UniqueActiveKeys(rows)
    ensures Total(Actives(key), rows) == if ActiveByKey(rows, key).Some? then 1 else 0
  {
    if rows != [] {
      var init := rows[..|rows| - 1];
      assert UniqueActiveKeys(init);
      ActiveTotal(init, key);
      var k := ActiveByKey(init, key);
      assert k.Some? ==> init[k.value] == rows[k.value];
    }
  }

  /** A completed open_incident adds one occurrence to its key, and one active incident if it created one. */
  lemma OpenCounts(s: Store, args: OpenArgs, draw: Draw, key: string)
    ensures var (t, r) := OpenIncident(s, args, draw);
            var mine := r.Ok? && KeyOf(args, draw) == key;
            Total(Occurrences(key), t.incidents)
              == Total(Occurrences(key), s.incidents) + (if mine then 1 else 0)
            && Total(Actives(key), t.incidents)
              == Total(Actives(key), s.incidents) + (if mine && r.value.1 then 1 else 0)
  {
    var t := OpenIncident(s, args, draw).0;
    if |t.incidents| > |s.incidents| {
      TotalAppend(Occurrences(key), s.incidents, t.incidents[|s.incidents|]);
      TotalAppend(Actives(key), s.incidents, t.incidents[|s.incidents|]);
    } else if t != s {
      var i := ActiveByKey(s.incidents, KeyOf(args, draw)).value;
      TotalUpdate(Occurrences(key), s.incidents, i, t.incidents[i]);
      TotalUpdate(Actives(key), s.incidents, i, t.incidents[i]);
    }
  }

  /** The key of the incident a change resolves, if it resolves one. */
  function ResolvedKey(s: Store, body: Change, actor: string, now: real): Option<string>
  {
    if ChangeIncident(s, body, actor, now).1.Ok? && VerbOf(body.action) == Some(Resolve)
    then Some(s.incidents[ById(s.incidents, Strip(body.id)).value].key)
    else None
  }

  lemma ChangeCounts(s: Store, body: Change, actor: string, now: real, key: string)
    ensures var t := ChangeIncident(s, body, actor, now).0;
            Total(Occurrences(key), t.incidents) == Total(Occurrences(key), s.incidents)
            && Total(Actives(key), t.incidents)
              == Total(Actives(key), s.incidents)
                 - (if ResolvedKey(s, body, actor, now) == Some(key) then 1 else 0)
  {
    var (t, r) := ChangeIncident(s, body, actor, now);
    if r.Ok? {
      var i := ById(s.incidents, Strip(body.id)).value;
      TotalUpdate(Occurrences(key), s.incidents, i, t.incidents[i]);
      TotalUpdate(Actives(key), s.incidents, i, t.incidents[i]);
    }
  }
}
