/**
 The self-healing cascade: note_event (netpulse/inventory.py) calls on_event (netpulse/healing.py),
 which calls execute (netpulse/runbooks.py), which notes an event of its own.
 */
module Healing {
  import opened Wrappers
  import opened Dedup
  import opened RateLimit
  import Incidents

  // ---------- parameters of a runbook ----------

  predicate ParamChar(c: char) { 'A' <= c <= 'Z' || 'a' <= c <= 'z' || '0' <= c <= '9' || c in "._-" }

  /** PARAM_RE.match: one to 64 such characters; the `$` also lets one line end follow. */
  predicate ParamMatch(s: string)
  {
    var body := if s != [] && s[|s| - 1] == '\n' then s[..|s| - 1] else s;
    1 <= |body| <= 64 && forall i :: 0 <= i < |body| ==> ParamChar(body[i])
  }

  datatype ParamError = BadParam(name: string) | Missing(name: string) | Unknown

  /** Declared names with their required flag, later declarations winning. */
  type Declared = map<string, bool>

  predicate GoodParams(params: map<string, string>)
  {
    forall k :: k in params ==> ParamMatch(k) && ParamMatch(Incidents.Strip(params[k]))
  }

  predicate AcceptsParams(declared: Declared, params: map<string, string>)
  {
    GoodParams(params) && params.Keys <= declared.Keys && forall k :: k in declared && declared[k] ==> k in params
  }

  /** Quotes, spaces, brackets, separators and operators of a command line. */
  const ACTIVE := "'\"`$;|&<>(){}[]*?!,= /\\\n\r\t"

  /** What an accepted parameter puts into a command is none of these. */
  lemma AcceptedAreInert(declared: Declared, params: map<string, string>, k: string)
    requires AcceptsParams(declared, params) && k in params
    ensures var v := Incidents.Strip(params[k]);
            k in declared && 1 <= |v| <= 64 && forall c <- v :: c !in ACTIVE
  {
    var v := Incidents.Strip(params[k]);
    hide Incidents.Strip, ParamMatch, ParamChar;
    MatchNotEmpty(v);
    StripEnds(params[k]);
    assert Incidents.IsSpace('\n');
    MatchChars(v);
    forall c | c in v ensures c !in ACTIVE {
      var i :| 0 <= i < |v| && v[i] == c;
      CharIsInert(c);
    }
  }

  lemma MatchChars(v: string)
    requires ParamMatch(v) && v[|v| - 1] != '\n'
    ensures |v| <= 64 && forall i :: 0 <= i < |v| ==> ParamChar(v[i])
  {
  }

  lemma CharIsInert(c: char)
    ensures ParamChar(c) ==> c !in ACTIVE
  {
  }

  lemma StripEnds(s: string)
    ensures var v := Incidents.Strip(s); v != "" ==> !Incidents.IsSpace(v[|v| - 1])
    decreases |s|
  {
    if s != "" {
      if Incidents.IsSpace(s[0]) { StripEnds(s[1..]); }
      else if Incidents.IsSpace(s[|s| - 1]) { StripEnds(s[..|s| - 1]); }
    }
  }

  lemma MatchNotEmpty(s: string)
    requires ParamMatch(s)
    ensures s != ""
  {
  }

  /** What an error says of the parameters. */
  predicate Explains(e: ParamError, declared: Declared, params: map<string, string>)
  {
    match e
    case BadParam(k) => k in params && !(ParamMatch(k) && ParamMatch(Incidents.Strip(params[k])))
    case Missing(k) => k in declared && declared[k] && k !in params
    case Unknown => !(params.Keys <= declared.Keys)
  }

  /** _validate_params: exactly which parameters are accepted, and what is handed on. */
  method ValidateParams(declared: Declared, params: map<string, string>)
      returns (r: Result<map<string, string>, ParamError>)
    ensures r.Ok? <==> AcceptsParams(declared, params)
    ensures r.Ok? ==> r.value == map k | k in params :: Incidents.Strip(params[k])
    ensures r.Err? ==> Explains(r.error, declared, params)
  {
    hide ParamMatch, Incidents.Strip;
    var clean: map<string, string> := map[];
    var todo := params.Keys;
    while todo != {}
      invariant todo <= params.Keys && clean.Keys == params.Keys - todo
      invariant forall k :: k in clean ==>
                ParamMatch(k) && clean[k] == Incidents.Strip(params[k]) && ParamMatch(clean[k])
      decreases todo
    {
      var k :| k in todo;
      var v := Incidents.Strip(params[k]);
      if !ParamMatch(k) || !ParamMatch(v) { return Err(BadParam(k)); }
      clean := clean[k := v];
      todo := todo - {k};
    }
    var names := declared.Keys;
    while names != {}
      invariant names <= declared.Keys
      invariant forall k :: k in declared && k !in names && declared[k] ==> k in clean
      decreases names
    {
      var k :| k in names;
      if declared[k] && k !in clean { return Err(Missing(k)); }
      names := names - {k};
    }
    if clean.Keys - declared.Keys != {} { return Err(Unknown); }
    return Ok(clean);
  }

  // ---------- the service ----------

  datatype Rule = Rule(onEvent: string, runbook: string, maxPerHour: int, confirm: bool)

  /** A runbook; `supported` says whether this machine can run it. */
  datatype Runbook = Runbook(declared: Declared, supported: bool, placeholders: set<string>, remote: bool)

  datatype Host = Host(name: string, ip: string)

  const SEVERITIES: set<string> := {"CRITICAL", "HIGH", "MEDIUM", "LOW"}

  function Text(host: Option<string>): string { if host.Some? then host.value else "" }

  function Graded(severity: string): string { if severity in SEVERITIES then severity else "MEDIUM" }

  predicate Distinct(s: seq<Key>)
  {
    forall i, j :: 0 <= i < j < |s| ==> s[i] != s[j]
  }

  /** What a cascade leaves behind. */
  datatype Trace = Trace(base: nat, limit: nat, first: nat, tick: nat, taken: set<Key>, started: seq<Key>,
                         last: map<Key, real>, log: seq<string>, events: seq<Event>)

  /** The rate table says the same of every key outside `taken`. */
  ghost predicate Untouched(a: map<Key, real>, b: map<Key, real>, taken: set<Key>)
  {
    forall k {:trigger LastRun(b, k)} :: k !in taken ==> LastRun(b, k) == LastRun(a, k)
  }

  function Most(each: nat, n: nat): nat { each * n }

  lemma MostStep(each: nat, n: nat)
    ensures Most(each, n + 1) == Most(each, n) + each
  {
  }

  /** An event that a program run left: it names the program, and tells how the run ended. */
  predicate OfRun(e: Event, log: seq<string>)
  {
    && e.kind == "runbook" && (e.severity == "LOW" || e.severity == "MEDIUM")
    && e.dedup.Some? && e.dedup.value.OfRunbook? && e.dedup.value.runbook in log
  }

  /** Every host row stays as it is. */
  predicate HostsStay(a: map<nat, Host>, b: map<nat, Host>) { forall i <- a :: i in b && b[i] == a[i] }

  class Service {
    const enabled: bool
    const runbooksEnabled: bool
    const rules: seq<Option<Rule>>
    const runbooks: map<string, Runbook>
    /** Successive clock readings, and how many were taken. */
    const clock: nat -> real
    var tick: nat
    /** The exit code of the n-th program run. */
    const exits: nat -> int
    var hosts: map<nat, Host>
    var nextId: nat
    var events: seq<Event>
    var lastRun: map<Key, real>
    /** Runbooks started by a rule, in order, and programs actually run (runbook_log). */
    var started: seq<Key>
    var log: seq<string>
    /** The entries of `started` with the readings that let them through, and every check made so far. */
    ghost var starts: seq<Request>
    ghost var requests: seq<Request>

    /** The names hosts can have: those known at the start, and their stripped forms. */
    ghost const names: set<string>
    /**
     The cascade in progress: the first reading that is its own and the first that is not, the place in
     `started` it began at, and the keys it has taken.
     */
    ghost var base: nat
    ghost var limit: nat
    ghost var first: nat
    ghost var taken: set<Key>

    constructor (enabled: bool, runbooksEnabled: bool, rules: seq<Option<Rule>>, runbooks: map<string, Runbook>,
                 clock: nat -> real, exits: nat -> int, hosts: map<nat, Host>, nextId: nat)
      requires nextId > 0 && forall id :: id in hosts ==> id < nextId
      ensures Valid() && taken == {} && started == [] && lastRun == map[] && events == []
      ensures this.clock == clock && this.rules == rules && this.hosts == hosts
    {
      this.enabled, this.runbooksEnabled, this.rules, this.runbooks := enabled, runbooksEnabled, rules, runbooks;
      this.clock, this.exits, this.tick, this.nextId := clock, exits, 0, nextId;
      this.hosts, this.events, this.lastRun, this.started, this.log := hosts, [], map[], [], [];
      var known := set id | id in hosts :: hosts[id].name;
      this.names := {""} + known + set n | n in known :: Incidents.Strip(n);
      this.base, this.limit, this.first, this.taken, this.starts, this.requests := 0, 0, 0, {}, [], [];
      new;
      forall n | n in names ensures Incidents.Strip(n) in names {
        if n != "" && n !in known {
          var m :| m in known && n == Incidents.Strip(m);
          Incidents.StripTwice(m);
        }
      }
      forall id | id in this.hosts ensures this.hosts[id].name in names {
        assert hosts[id].name in known;
      }
    }

    predicate Indexed(k: Key) { k.0 < |rules| && rules[k.0].Some? && !rules[k.0].value.confirm }

    ghost predicate Known()
      reads this`hosts, this`nextId
    {
      && nextId > 0 && (forall id :: id in hosts ==> id < nextId && hosts[id].name in names)
      && "" in names && (forall n :: n in names ==> Incidents.Strip(n) in names)
    }

    /** A reading the clock gave between two moments. */
    predicate ReadBetween(from: nat, to: nat, t: real) { exists i :: from <= i < to && t == clock(i) }

    ghost predicate Valid()
      reads this
    {
      Known() && Paced() && Tracked(Seen())
    }

    /** What the cascade in progress has taken is what it has started, at readings of its own, and each once. */
    ghost predicate Tracked(t: Trace)
    {
      && t.base <= t.tick && t.first <= |t.started|
      && Distinct(t.started[t.first..])
      && (forall k :: k in t.taken <==> k in t.started[t.first..])
      && (forall k :: k in t.taken ==>
            Indexed(k) && k.1 in names && k in t.last && ReadBetween(t.base, t.tick, t.last[k]))
    }

    /** How often a rule may run in an hour; what is no rule never asks. */
    function HourlyLimit(idx: nat): int
    {
      if idx < |rules| && rules[idx].Some? then rules[idx].value.maxPerHour else 1
    }

    /** The rate table and the starts are what the checks made so far come to. */
    ghost predicate Paced()
      reads this`lastRun, this`requests, this`starts, this`started
    {
      && lastRun == Table(HourlyLimit, requests) && starts == LetThrough(HourlyLimit, requests)
      && |starts| == |started| && forall i :: 0 <= i < |starts| ==> starts[i].0 == started[i]
    }

    /**
     Over the whole life of the service a rule is started for a host at most max(1, max_per_hour) times in
     any hour.
     */
    lemma StartsAreLimited(key: Key, w: real)
      requires Paced()
      ensures CountIn(TimesOf(starts, key), w) <= PerHour(HourlyLimit(key.0))
      ensures |starts| == |started| && forall i :: 0 <= i < |starts| ==> starts[i].0 == started[i]
    {
      LetThroughIsAccepted(HourlyLimit, requests, key);
      WindowLimit(HourlyLimit, requests, key, w);
    }

    /** Between two readings the clock never advances by as much as the period of any rule; it may step back. */
    ghost predicate CalmBetween(from: nat, to: nat)
    {
      forall i: nat, j: nat {:trigger CalmPair(i, j)} :: from <= i < j < to ==> CalmPair(i, j)
    }

    predicate CalmPair(i: nat, j: nat)
    {
      forall r <- rules :: r.Some? ==> clock(j) - clock(i) < Period(r.value.maxPerHour)
    }

    ghost predicate Calm()
      reads this`base, this`limit
    {
      CalmBetween(base, limit)
    }

    ghost function Pairs(): set<Key> { set i, n | 0 <= i < |rules| && n in names :: (i, n) }

    /** The most readings a cascade makes: for its first event, and for each pair a run and the event that follows. */
    ghost function Horizon(): nat { |rules| + 2 + Reserve({}) }

    /** The readings set aside for the pairs that are not yet taken. */
    ghost function Reserve(t: set<Key>): nat { Most(|rules| + 3, |Pairs() - t|) }

    lemma ReserveStep(t: set<Key>, k: Key)
      requires Indexed(k) && k.1 in names && k !in t
      ensures k in Pairs() && Reserve(t) == Reserve(t + {k}) + |rules| + 3
    {
      assert Pairs() - t == (Pairs() - (t + {k})) + {k};
      MostStep(|rules| + 3, |Pairs() - (t + {k})|);
    }

    /** What is left of the readings covers `n` more besides those of the pairs not yet taken. */
    ghost predicate Fits(n: int)
      reads this`tick, this`limit, this`taken
    {
      tick + n + Reserve(taken) <= limit
    }

    method Now() returns (t: real)
      modifies this`tick
      ensures t == clock(old(tick)) && tick == old(tick) + 1
    {
      t := clock(tick);
      tick := tick + 1;
    }

    /** _rate_ok */
    method RateOk(idx: nat, host: string, maxPerHour: int) returns (ok: bool, now: real)
      modifies this`tick, this`lastRun
      ensures tick == old(tick) + 1 && now == clock(old(tick))
      ensures ok <==> Allowed(old(lastRun), (idx, host), maxPerHour, now)
      ensures lastRun == AfterCheck(old(lastRun), (idx, host), maxPerHour, now)
    {
      now := Now();
      var last := if (idx, host) in lastRun then lastRun[(idx, host)] else 0.0;
      if now - last < 3600.0 / (if maxPerHour > 1 then maxPerHour else 1) as real { return false, now; }
      lastRun := lastRun[(idx, host) := now];
      return true, now;
    }

    ghost function Seen(): Trace
      reads this
    {
      Trace(base, limit, first, tick, taken, started, lastRun, log, events)
    }

    /** The parameters a rule hands to its runbook. */
    function ParamsFor(host: string): map<string, string> { if host != "" then map["host" := host] else map[] }

    /** The program a start comes to: that of its rule, if it can run for the host. */
    function RunOf(k: Key): seq<string>
    {
      if k.0 < |rules| && rules[k.0].Some? && Runs(rules[k.0].value.runbook, ParamsFor(k.1))
      then [rules[k.0].value.runbook] else []
    }

    function Programs(keys: seq<Key>): (r: seq<string>)
      ensures |r| <= |keys|
    {
      if keys == [] then [] else Programs(keys[..|keys| - 1]) + RunOf(keys[|keys| - 1])
    }

    /** The programs of some starts are the runbooks of their rules, of those that can be run for their host. */
    lemma {:induction false} ProgramsMean(keys: seq<Key>, id: string)
      ensures id in Programs(keys) <==>
              exists k <- keys :: k.0 < |rules| && rules[k.0].Some? && rules[k.0].value.runbook == id
                                  && Runs(id, if k.1 == "" then map[] else map["host" := k.1])
    {
      hide Runs;
      if keys != [] {
        var n := |keys| - 1;
        ProgramsMean(keys[..n], id);
        assert keys == keys[..n] + [keys[n]];
      }
    }

    lemma {:induction false} ProgramsConcat(a: seq<Key>, b: seq<Key>)
      ensures Programs(a + b) == Programs(a) + Programs(b)
    {
      hide RunOf;
      if b == [] {
        assert a + b == a;
      } else {
        ProgramsConcat(a, b[..|b| - 1]);
        assert (a + b)[..|a + b| - 1] == a + b[..|b| - 1];
      }
    }

    /**
     What a step of the cascade keeps.  It only adds; the programs it runs are its own and, in their order, those
     of the rules it starts; and every event beyond `noted` was left by a program run.
     */
    ghost predicate Grew(a: Trace, b: Trace, own: seq<string>, noted: nat)
    {
      && b.base == a.base && b.limit == a.limit && b.first == a.first && a.tick <= b.tick
      && Untouched(a.last, b.last, b.taken)
      && a.taken <= b.taken && a.started <= b.started && a.events <= b.events
      && b.log == a.log + own + Programs(b.started[|a.started|..])
      && |b.events| - |a.events| <= |b.log| - |a.log| + noted
      && (forall i :: |a.events| + noted <= i < |b.events| ==> OfRun(b.events[i], b.log))
      && (!enabled ==> b.started == a.started)
    }

    lemma GrewTrans(a: Trace, b: Trace, c: Trace, own: seq<string>, noted: nat, noted': nat)
      requires Grew(a, b, own, noted) && Grew(b, c, [], noted') && (noted' == 0 || a.events == b.events)
      ensures Grew(a, c, own, noted + noted')
    {
      hide Programs, Untouched;
      var x, y := b.started[|a.started|..], c.started[|b.started|..];
      assert c.started[|a.started|..] == x + y;
      ProgramsConcat(x, y);
      assert b.log + [] == b.log;
      assert a.log + own + Programs(x) + Programs(y) == a.log + own + (Programs(x) + Programs(y));
      RunsStay(a, b, c, noted);
      UntouchedTrans(a, b, c);
    }

    lemma UntouchedTrans(a: Trace, b: Trace, c: Trace)
      requires Untouched(a.last, b.last, b.taken) && Untouched(b.last, c.last, c.taken) && b.taken <= c.taken
      ensures Untouched(a.last, c.last, c.taken)
    {
    }

    /** Events of runs stay events of runs. */
    lemma RunsStay(a: Trace, b: Trace, c: Trace, noted: nat)
      requires b.events <= c.events && b.log <= c.log
      requires forall i :: |a.events| + noted <= i < |b.events| ==> OfRun(b.events[i], b.log)
      ensures forall i :: |a.events| + noted <= i < |b.events| ==> OfRun(c.events[i], c.log)
    {
    }

    /** The next clock reading does not let a key through that the cascade has taken. */
    lemma TakenIsRefused(idx: nat, host: string)
      requires Valid() && Calm() && Indexed((idx, host)) && (idx, host) in taken && tick < limit
      ensures !Allowed(lastRun, (idx, host), rules[idx].value.maxPerHour, clock(tick))
    {
      var i :| base <= i < tick && lastRun[(idx, host)] == clock(i);
      assert CalmPair(i, tick) && rules[idx] in rules;
    }

    lemma TakeKeepsTracked(a: Trace, b: Trace, k: Key)
      requires Tracked(a) && Indexed(k) && k.1 in names && k !in a.taken
      requires b == a.(tick := a.tick + 1, taken := a.taken + {k}, started := a.started + [k],
                       last := a.last[k := clock(a.tick)])
      ensures Tracked(b)
    {
      assert b.started[b.first..] == a.started[a.first..] + [k];
      assert ReadBetween(b.base, b.tick, clock(a.tick));
      forall j | j in a.taken ensures ReadBetween(b.base, b.tick, b.last[j]) {
        assert ReadBetween(a.base, a.tick, a.last[j]);
      }
    }

    /** The clock, the log and the events have no say in what is taken. */
    lemma StaysTracked(a: Trace, b: Trace)
      requires Tracked(a) && a.tick <= b.tick && b == a.(tick := b.tick, log := b.log, events := b.events)
      ensures Tracked(b)
    {
      forall j | j in a.taken ensures ReadBetween(b.base, b.tick, b.last[j]) {
        assert ReadBetween(a.base, a.tick, a.last[j]);
      }
    }

    lemma MoreNoted(a: Trace)
      ensures Grew(a, a, [], 1)
    {
    }

    lemma TickGrows(a: Trace, b: Trace)
      requires a.tick <= b.tick && b == a.(tick := b.tick)
      ensures Grew(a, b, [], 0)
    {
    }

    /** A rate check that lets a rule through takes a key the cascade had not taken. */
    method Take(idx: nat, host: string) returns (ok: bool)
      requires enabled && Valid() && Calm() && tick < limit && Indexed((idx, host)) && host in names
      modifies this`tick, this`lastRun, this`started, this`taken, this`starts, this`requests
      ensures Valid() && Calm() && (!ok ==> Grew(old(Seen()), Seen(), [], 0))
      ensures ok ==> (idx, host) !in old(taken) && taken == old(taken) + {(idx, host)}
      ensures ok ==> started == old(started) + [(idx, host)]
      ensures ok ==> Seen() == old(Seen()).(tick := old(tick) + 1, taken := taken, started := started, last := lastRun)
                     && lastRun == old(lastRun)[(idx, host) := clock(old(tick))]
      ensures !ok ==> taken == old(taken) && started == old(started)
                      && !Allowed(old(lastRun), (idx, host), rules[idx].value.maxPerHour, clock(old(tick)))
      ensures tick == old(tick) + 1
    {
      hide CalmBetween, Allowed, AfterCheck, Paced, Tracked, Grew, Known, Reserve, Pairs, HourlyLimit, Period, LastRun;
      if (idx, host) in taken { TakenIsRefused(idx, host); }
      ghost var before := Seen();
      ok := Check(idx, host);
      if ok {
        taken := taken + {(idx, host)};
        TakeKeepsTracked(before, Seen(), (idx, host));
      } else {
        StaysTracked(before, Seen());
        TickGrows(before, Seen());
      }
    }

    /** A rate check, with what it lets through put on record. */
    method Check(idx: nat, host: string) returns (ok: bool)
      requires Paced() && idx < |rules| && rules[idx].Some?
      modifies this`tick, this`lastRun, this`started, this`starts, this`requests
      ensures Paced() && tick == old(tick) + 1
      ensures ok <==> Allowed(old(lastRun), (idx, host), rules[idx].value.maxPerHour, clock(old(tick)))
      ensures lastRun == if ok then old(lastRun)[(idx, host) := clock(old(tick))] else old(lastRun)
      ensures started == if ok then old(started) + [(idx, host)] else old(started)
    {
      hide Table, LetThrough, Allowed;
      var now;
      ghost var request := ((idx, host), clock(tick));
      OneMoreCheck(HourlyLimit, requests, request);
      ok, now := RateOk(idx, host, rules[idx].value.maxPerHour);
      requests := requests + [request];
      if ok {
        starts := starts + [request];
        started := started + [(idx, host)];
      }
    }

    /** resolve_host_id, with upsert_host for a name not seen before. */
    method ResolveHost(name: string) returns (id: Option<nat>)
      requires Known() && name in names
      modifies this`hosts, this`nextId
      ensures Known() && old(hosts.Keys) <= hosts.Keys && forall i :: i in old(hosts) ==> hosts[i] == old(hosts)[i]
      ensures id.None? <==> Incidents.Strip(name) == ""
      ensures id.Some? ==> id.value in hosts
                           && (hosts[id.value].name == Incidents.Strip(name)
                               || hosts[id.value].ip == Incidents.Strip(name))
    {
      var key := Incidents.Strip(name);
      if key == "" { return None; }
      if found :| found in hosts && (hosts[found].name == key || hosts[found].ip == key) { return Some(found); }
      hosts := hosts[nextId := Host(key, "")];
      nextId := nextId + 1;
      return Some(nextId - 1);
    }

    /** note_event of netpulse/inventory.py; host 0 stands for none. */
    method NoteEvent(host: nat, kind: string, severity: string, dedup: Option<DedupKey>, hours: int,
                     ghost extra: nat) returns (duplicate: bool)
      requires Valid() && Calm() && Fits(extra + |rules| + 2)
      modifies this
      ensures StartsFor(old(started), started, kind)
      ensures Valid() && Calm() && Grew(old(Seen()), Seen(), [], 1)
      ensures duplicate <==> dedup.Some? && Duplicate(old(events), dedup.value, clock(old(tick)), hours)
      ensures duplicate ==> events == old(events) && started == old(started) && log == old(log)
      ensures severity == "LOW" ==> started == old(started)
      ensures !duplicate ==> |events| > |old(events)|
                             && Recorded(events[|old(events)|], host, kind, severity, dedup, old(tick))
      ensures HostsStay(old(hosts), hosts)
      ensures !duplicate && enabled ==>
              AllConsidered(old(Seen()), Seen(), kind, Graded(severity), Text(old(NameOf(host))))
      ensures Fits(extra)
      decreases limit - tick, 3
    {
      hide Valid, Grew, Recorded, Duplicate, CalmBetween, Reserve, Pairs, StartsFor;
      ghost var before := Seen();
      NoStarts(started, kind);
      if severity == "LOW" { LowMatchesNothing(|rules|, kind); }
      var isNew := InsertEvent(host, kind, severity, dedup, hours);
      if !isNew { return true; }
      ghost var here := Seen();
      OnEvent(kind, Graded(severity), NameOf(host), extra);
      ConsideredSince(before, here, Seen(), kind, Graded(severity), Text(old(NameOf(host))));
      OnlyMore(here, Seen(), 0);
      GrewTrans(before, here, Seen(), [], 1, 0);
      return false;
    }

    function NameOf(host: nat): (name: Option<string>)
      reads this
      ensures Valid() && name.Some? ==> name.value in names
    {
      if host > 0 && host in hosts then Some(hosts[host].name) else None
    }

    /** The dedup query and the INSERT of note_event. */
    method InsertEvent(host: nat, kind: string, severity: string, dedup: Option<DedupKey>, hours: int)
      returns (isNew: bool)
      requires Valid() && Calm()
      modifies this`tick, this`events
      ensures Valid() && Calm() && Grew(old(Seen()), Seen(), [], 1)
      ensures isNew <==> !(dedup.Some? && Duplicate(old(events), dedup.value, clock(old(tick)), hours))
      ensures lastRun == old(lastRun) && old(tick) <= tick <= old(tick) + 2
      ensures if isNew then |events| == |old(events)| + 1
              && Recorded(events[|old(events)|], host, kind, severity, dedup, old(tick))
              else events == old(events)
    {
      hide Duplicate, CalmBetween, Paced;
      if dedup.Some? {
        var now := Now();
        if Duplicate(events, dedup.value, now, hours) { return false; }
      }
      var at := Now();
      events := events + [Event(at, host, Incidents.Take(kind, 32), Graded(severity), dedup)];
      return true;
    }

    /**
     The row of an event: its host and key are what was noted, its kind the first 32 characters of it, its severity
     one of the four, MEDIUM for any other, and its time the reading after that of the dedup query.
     */
    predicate Recorded(e: Event, host: nat, kind: string, severity: string, dedup: Option<DedupKey>, reading: nat)
    {
      && e.host == host && e.dedup == dedup && e.at == clock(if dedup.Some? then reading + 1 else reading)
      && e.kind <= kind && |e.kind| == (if |kind| < 32 then |kind| else 32)
      && e.severity == if severity in {"CRITICAL", "HIGH", "MEDIUM", "LOW"} then severity else "MEDIUM"
    }

    /** The starts added are of rules for a kind of event or for runs, none of which waits for a confirmation. */
    ghost predicate StartsFor(a: seq<Key>, b: seq<Key>, kind: string)
    {
      a <= b && forall i :: |a| <= i < |b| ==> ReactsTo(b[i].0, kind) || ReactsTo(b[i].0, "runbook")
    }

    predicate ReactsTo(idx: nat, kind: string)
    {
      idx < |rules| && rules[idx].Some? && rules[idx].value.onEvent == kind && !rules[idx].value.confirm
    }

    /** Which rules match an event: those for its kind, unless it is LOW. */
    lemma MatchesIff(idx: nat, kind: string, severity: string)
      ensures Matches(idx, kind, severity) <==> ReactsTo(idx, kind) && severity != "LOW"
    {
    }

    lemma NoStarts(a: seq<Key>, kind: string)
      ensures StartsFor(a, a, kind)
    {
    }

    lemma LowMatchesNothing(n: nat, kind: string)
      ensures NoneMatches(n, kind, "LOW")
    {
    }

    lemma OneStart(a: seq<Key>, k: Key)
      requires k.0 < |rules| && rules[k.0].Some? && !rules[k.0].value.confirm
      ensures StartsFor(a, a + [k], rules[k.0].value.onEvent)
    {
    }

    lemma StartsForMore(a: seq<Key>, b: seq<Key>, c: seq<Key>, kind: string)
      requires StartsFor(a, b, kind) && (StartsFor(b, c, kind) || StartsFor(b, c, "runbook"))
      ensures StartsFor(a, c, kind)
    {
      forall i | |a| <= i < |c| ensures ReactsTo(c[i].0, kind) || ReactsTo(c[i].0, "runbook") {
        if i < |b| { assert c[i] == b[i]; }
      }
    }

    predicate Matches(idx: nat, kind: string, severity: string)
    {
      Indexed((idx, "")) && rules[idx].value.onEvent == kind && severity != "LOW"
    }

    /** Between two moments the rule was started for the host, or a clock reading forbade it. */
    ghost predicate Considered(a: Trace, b: Trace, idx: nat, host: string)
    {
      idx < |rules| && rules[idx].Some? &&
      ((idx, host) in b.taken
       || exists i: nat :: a.tick <= i < b.tick && !Allowed(a.last, (idx, host), rules[idx].value.maxPerHour, clock(i)))
    }

    /** ... as every rule that matches was, and as the first n of them were. */
    ghost predicate AllConsidered(a: Trace, b: Trace, kind: string, severity: string, host: string)
    {
      ConsideredTo(|rules|, a, b, kind, severity, host)
    }

    ghost predicate ConsideredTo(n: nat, a: Trace, b: Trace, kind: string, severity: string, host: string)
    {
      forall i: nat :: i < n && Matches(i, kind, severity) ==> Considered(a, b, i, host)
    }

    predicate NoneMatches(n: nat, kind: string, severity: string)
    {
      forall i: nat :: i < n ==> !Matches(i, kind, severity)
    }

    lemma ConsideredSince(a: Trace, b: Trace, c: Trace, kind: string, severity: string, host: string)
      requires a.tick <= b.tick && a.last == b.last
      ensures AllConsidered(b, c, kind, severity, host) ==> AllConsidered(a, c, kind, severity, host)
    {
    }

    lemma OneMoreConsidered(n: nat, a: Trace, b: Trace, c: Trace, kind: string, severity: string, host: string)
      requires Grew(b, c, [], 0) && ConsideredTo(n, a, b, kind, severity, host)
      requires Matches(n, kind, severity) ==> Considered(a, c, n, host)
      ensures ConsideredTo(n + 1, a, c, kind, severity, host)
    {
    }

    lemma Refused(a: Trace, b: Trace, c: Trace, idx: nat, host: string)
      requires idx < |rules| && rules[idx].Some?
      requires Grew(a, b, [], 0) && b.tick < c.tick && b.taken <= c.taken
      requires !Allowed(b.last, (idx, host), rules[idx].value.maxPerHour, clock(b.tick))
      ensures Considered(a, c, idx, host)
    {
      if (idx, host) !in c.taken {
        assert LastRun(b.last, (idx, host)) == LastRun(a.last, (idx, host));
        assert a.tick <= b.tick < c.tick;
      }
    }

    /** on_event of netpulse/healing.py: it tries every rule that matches, and no other. */
    method OnEvent(kind: string, severity: string, host: Option<string>, ghost extra: nat)
      requires Valid() && Calm() && Fits(extra + |rules|) && (host.Some? ==> host.value in names)
      modifies this
      ensures StartsFor(old(started), started, kind)
      ensures HostsStay(old(hosts), hosts)
      ensures Valid() && Calm() && Grew(old(Seen()), Seen(), [], 0)
      ensures NoneMatches(|rules|, kind, severity) ==> started == old(started) && events == old(events)
      ensures enabled ==> AllConsidered(old(Seen()), Seen(), kind, severity, Text(host))
      ensures Fits(extra)
      decreases limit - tick, 2
    {
      NoStarts(started, kind);
      if !enabled { return; }
      hide Valid, Grew, Considered, ConsideredTo, NoneMatches, CalmBetween, Reserve, Pairs, StartsFor;
      ghost var before := Seen();
      Unmoved(before, kind, severity, Text(host));
      var name := Text(host);
      for idx := 0 to |rules|
        invariant Valid() && Calm() && Grew(before, Seen(), [], 0) && Fits(extra + |rules| - idx)
        invariant HostsStay(old(hosts), hosts) && StartsFor(old(started), started, kind)
        invariant limit == old(limit) && old(tick) <= tick && ConsideredTo(idx, before, Seen(), kind, severity, name)
        invariant NoneMatches(idx, kind, severity) ==> started == old(started) && events == old(events)
      {
        ghost var so := started;
        Visit(idx, kind, severity, name, before, extra + |rules| - idx - 1);
        StartsForMore(old(started), so, started, kind);
        NoneMatchesStep(idx, kind, severity);
      }
    }

    lemma Unmoved(a: Trace, kind: string, severity: string, host: string)
      requires Valid()
      ensures "" in names && Grew(a, a, [], 0) && ConsideredTo(0, a, a, kind, severity, host)
    {
    }

    lemma NoneMatchesStep(n: nat, kind: string, severity: string)
      ensures NoneMatches(n + 1, kind, severity) ==> NoneMatches(n, kind, severity) && !Matches(n, kind, severity)
    {
    }

    /** One round of the loop of on_event. */
    method Visit(idx: nat, kind: string, severity: string, host: string, ghost before: Trace, ghost extra: nat)
      requires enabled && idx < |rules| && host in names && Valid() && Calm() && Fits(extra + 1)
      requires Grew(before, Seen(), [], 0) && ConsideredTo(idx, before, Seen(), kind, severity, host)
      modifies this
      ensures StartsFor(old(started), started, kind)
      ensures HostsStay(old(hosts), hosts)
      ensures Valid() && Calm() && Grew(before, Seen(), [], 0) && Fits(extra)
      ensures limit == old(limit) && old(tick) <= tick && ConsideredTo(idx + 1, before, Seen(), kind, severity, host)
      ensures !Matches(idx, kind, severity) ==> started == old(started) && events == old(events)
      decreases limit - tick, 1
    {
      hide Valid, Grew, Considered, ConsideredTo, CalmBetween, Reserve, Pairs, StartsFor;
      NoStarts(started, kind);
      if rules[idx].None? || rules[idx].value.onEvent != kind || rules[idx].value.confirm || severity == "LOW" {
        NotConsidered(idx, before, Seen(), kind, severity, host);
        return;
      }
      ghost var here := Seen();
      TryRule(idx, host, before, extra);
      OneMoreConsidered(idx, before, here, Seen(), kind, severity, host);
      GrewTrans(before, here, Seen(), [], 0, 0);
    }

    lemma NotConsidered(n: nat, a: Trace, b: Trace, kind: string, severity: string, host: string)
      requires ConsideredTo(n, a, b, kind, severity, host) && !Matches(n, kind, severity)
      ensures ConsideredTo(n + 1, a, b, kind, severity, host)
    {
    }

    /** ... for a rule that matches. */
    method TryRule(idx: nat, host: string, ghost before: Trace, ghost extra: nat)
      requires enabled && Valid() && Calm() && Fits(extra + 1) && Indexed((idx, host)) && host in names
      requires Grew(before, Seen(), [], 0)
      modifies this
      ensures StartsFor(old(started), started, rules[idx].value.onEvent)
      ensures HostsStay(old(hosts), hosts)
      ensures Valid() && Calm() && Grew(old(Seen()), Seen(), [], 0) && Considered(before, Seen(), idx, host)
      ensures Fits(extra) && limit == old(limit) && old(tick) <= tick
      decreases limit - tick, 0
    {
      hide Valid, Grew, Considered, Allowed, CalmBetween, Reserve, Pairs, StartsFor;
      ghost var here := Seen();
      NoStarts(started, rules[idx].value.onEvent);
      OneStart(started, (idx, host));
      var ok := Take(idx, host);
      ghost var there := Seen();
      if ok {
        assert (idx, host) in there.taken && (idx, host) !in here.taken;
        ReserveStep(here.taken, (idx, host));
        assert Fits(extra + |rules| + 3);
        var _ := Execute(rules[idx].value.runbook, if host != "" then map["host" := host] else map[], extra);
        StartGrows(here, there, Seen(), (idx, host));
        StartsForMore(here.started, there.started, started, rules[idx].value.onEvent);
        TakenIsConsidered(before, Seen(), idx, host);
      } else {
        Refused(before, here, there, idx, host);
      }
    }

    /** A start and the run it comes to. */
    lemma StartGrows(a: Trace, b: Trace, c: Trace, k: Key)
      requires enabled && Grew(b, c, RunOf(k), 0) && k in b.taken
      requires b == a.(tick := b.tick, taken := a.taken + {k}, started := a.started + [k], last := b.last)
      requires k in b.last && b.last == a.last[k := b.last[k]] && a.tick <= b.tick
      ensures Grew(a, c, [], 0) && k in c.taken && c.limit == a.limit && a.tick <= c.tick
    {
      hide RunOf, OfRun, Programs, Untouched;
      var x := c.started[|b.started|..];
      assert c.started[|a.started|..] == [k] + x;
      ProgramsFrom(k, x);
      assert c.log == a.log + [] + (RunOf(k) + Programs(x));
      UntouchedTaken(a, b, c, k);
    }

    lemma ProgramsFrom(k: Key, x: seq<Key>)
      ensures Programs([k] + x) == RunOf(k) + Programs(x)
    {
      hide RunOf;
      ProgramsConcat([k], x);
      assert [k][..0] == [] && Programs([k]) == Programs([]) + RunOf(k);
    }

    lemma UntouchedTaken(a: Trace, b: Trace, c: Trace, k: Key)
      requires k in b.last && b.last == a.last[k := b.last[k]] && k in c.taken && Untouched(b.last, c.last, c.taken)
      ensures Untouched(a.last, c.last, c.taken)
    {
    }

    lemma OnlyMore(a: Trace, b: Trace, noted: nat)
      requires Grew(a, b, [], noted)
      ensures a.events <= b.events && a.log <= b.log
    {
      hide Programs;
    }

    lemma TakenIsConsidered(a: Trace, b: Trace, idx: nat, host: string)
      requires idx < |rules| && rules[idx].Some? && (idx, host) in b.taken
      ensures Considered(a, b, idx, host)
    {
    }

    /** When execute runs the program. */
    predicate Runs(id: string, params: map<string, string>)
    {
      && runbooksEnabled && id in runbooks && runbooks[id].supported
      && AcceptsParams(runbooks[id].declared, params)
      && runbooks[id].placeholders <= params.Keys && (runbooks[id].remote ==> "host" in params)
    }

    /** Nothing runs that is switched off, unknown, unsupported or lacks a value; a remote program has a host. */
    lemma RunsOnly(id: string, params: map<string, string>)
      requires Runs(id, params)
      ensures runbooksEnabled && id in runbooks && runbooks[id].supported
      ensures forall name <- runbooks[id].placeholders :: name in params && ParamMatch(Incidents.Strip(params[name]))
      ensures runbooks[id].remote ==> "host" in params && Incidents.Strip(params["host"]) != ""
      ensures forall name <- runbooks[id].declared :: runbooks[id].declared[name] ==> name in params
    {
      hide Incidents.Strip;
      if runbooks[id].remote { MatchNotEmpty(Incidents.Strip(params["host"])); }
    }

    /** execute of netpulse/runbooks.py */
    method Execute(id: string, params: map<string, string>, ghost extra: nat) returns (ok: bool)
      requires Valid() && Calm() && Fits(extra + |rules| + 3) && ("host" in params ==> params["host"] in names)
      modifies this
      ensures StartsFor(old(started), started, "runbook")
      ensures HostsStay(old(hosts), hosts)
      ensures Valid() && Calm() && Grew(old(Seen()), Seen(), if Runs(id, params) then [id] else [], 0)
      ensures Runs(id, params) ==> old(log) + [id] <= log && (ok <==> exits(|old(log)|) == 0)
      ensures !Runs(id, params) ==> !ok && log == old(log) && events == old(events)
      ensures ok || !Runs(id, params) ==> started == old(started)
      ensures Runs(id, params) ==>
                if "host" in params then Tells(old(events), events, old(tick), id, Incidents.Strip(params["host"]), ok,
                                               hosts)
                else events == old(events)
      ensures Fits(extra)
      decreases limit - tick, 5
    {
      hide CalmBetween, Paced, Reserve, Pairs, Runs, StartsFor;
      NoStarts(started, "runbook");
      var host := Prepare(id, params);
      if host.None? { return false; }
      ok := exits(|log|) == 0;
      ghost var before := Seen();
      log := log + [id];
      StaysTracked(before, Seen());
      ghost var here := Seen();
      if host.value != "" { FollowUp(id, host.value, ok, extra); } else { MoreNoted(here); }
      OwnRun(before, here, Seen(), id);
    }

    /** A run of a step's own, and the event it left. */
    lemma OwnRun(a: Trace, b: Trace, c: Trace, id: string)
      requires b == a.(log := a.log + [id]) && Grew(b, c, [], 1)
      requires |c.events| > |a.events| ==> OfRun(c.events[|a.events|], c.log)
      ensures Grew(a, c, [id], 0)
    {
      hide OfRun, Programs;
    }

    /** The checks of execute: the host of a run, which may be none, or no run at all. */
    method Prepare(id: string, params: map<string, string>) returns (host: Option<string>)
      ensures host.Some? <==> Runs(id, params)
      ensures host.Some? ==> host.value == if "host" in params then Incidents.Strip(params["host"]) else ""
    {
      hide Incidents.Strip, ParamMatch;
      if !runbooksEnabled || id !in runbooks || !runbooks[id].supported { return None; }
      var book := runbooks[id];
      var checked := ValidateParams(book.declared, params);
      if checked.Err? { return None; }
      var clean := checked.value;
      assert clean.Keys == params.Keys;
      var name := if "host" in clean then clean["host"] else "";
      if "host" in clean { MatchNotEmpty(name); }
      if book.placeholders <= params.Keys { assert book.placeholders - clean.Keys == {}; }
      else { var k :| k in book.placeholders && k !in params.Keys; assert k in book.placeholders - clean.Keys; }
      if book.placeholders - clean.Keys != {} || (book.remote && name == "") { return None; }
      return Some(name);
    }

    /**
     What a run leaves: nothing for a blank host or a duplicate; otherwise an event on the row of its host, LOW when
     the program succeeded and MEDIUM when it did not, under a key of the program, the host and the hour.
     */
    ghost predicate Tells(before: seq<Event>, after: seq<Event>, reading: nat, id: string, host: string, ok: bool,
                          hosts: map<nat, Host>)
    {
      var name := Incidents.Strip(host);
      var key := OfRunbook(id, host, (clock(reading) / 3600.0).Floor);
      if name == "" || Duplicate(before, key, clock(reading + 1), 1) then after == before
      else |before| < |after| && Left(after[|before|], hosts, name, ok, key, reading + 1)
    }

    /** An event of a run on the row of a host. */
    predicate Left(e: Event, hosts: map<nat, Host>, name: string, ok: bool, key: DedupKey, reading: nat)
    {
      && e.host in hosts && (hosts[e.host].name == name || hosts[e.host].ip == name)
      && Recorded(e, e.host, "runbook", if ok then "LOW" else "MEDIUM", Some(key), reading)
    }

    /** The event a run leaves on the host it was for. */
    method FollowUp(id: string, host: string, ok: bool, ghost extra: nat)
      requires Valid() && Calm() && Fits(extra + |rules| + 3) && host in names && id in log
      modifies this
      ensures StartsFor(old(started), started, "runbook")
      ensures HostsStay(old(hosts), hosts)
      ensures Valid() && Calm() && Grew(old(Seen()), Seen(), [], 1)
      ensures |events| > |old(events)| ==> OfRun(events[|old(events)|], log)
      ensures Tells(old(events), events, old(tick), id, host, ok, hosts)
      ensures ok ==> started == old(started)
      ensures Fits(extra)
      decreases limit - tick, 4
    {
      hide CalmBetween, Paced, Tracked, Reserve, Pairs, Grew, Duplicate, Recorded, Incidents.Strip, HostsStay, OfRun,
           Tells, StartsFor;
      ghost var before := Seen();
      NoStarts(started, "runbook");
      var hid := ResolveHost(host);
      assert Seen() == before;
      if hid.Some? {
        var now := Now();
        ghost var here := Seen();
        StaysTracked(before, here);
        TickGrows(before, here);
        ghost var known := hosts;
        ghost var key := OfRunbook(id, host, (now / 3600.0).Floor);
        var duplicate := NoteEvent(hid.value, "runbook", if ok then "LOW" else "MEDIUM",
                                   Some(OfRunbook(id, host, (now / 3600.0).Floor)), 1, extra);
        OnlyMore(here, Seen(), 1);
        GrewTrans(before, here, Seen(), [], 0, 1);
        HostsStayLonger(old(hosts), known, hosts, hid.value);
        if duplicate {
          NothingLeft(before.events, old(tick), id, host, ok, hosts);
        } else {
          RunIsLeft(events[|before.events|], hid.value, id, ok, key, old(tick) + 1, log);
          EventLeft(before.events, events, old(tick), id, host, ok, hosts);
        }
      } else {
        MoreNoted(before);
        NothingLeft(before.events, old(tick), id, host, ok, hosts);
        HostsStayLonger(old(hosts), hosts, hosts, 0);
      }
    }

    lemma NothingLeft(before: seq<Event>, reading: nat, id: string, host: string, ok: bool, hosts: map<nat, Host>)
      requires Incidents.Strip(host) == ""
               || Duplicate(before, OfRunbook(id, host, (clock(reading) / 3600.0).Floor), clock(reading + 1), 1)
      ensures Tells(before, before, reading, id, host, ok, hosts)
    {
    }

    lemma EventLeft(before: seq<Event>, after: seq<Event>, reading: nat, id: string, host: string, ok: bool,
                    hosts: map<nat, Host>)
      requires var key := OfRunbook(id, host, (clock(reading) / 3600.0).Floor);
               && Incidents.Strip(host) != "" && !Duplicate(before, key, clock(reading + 1), 1)
               && |before| < |after| && Left(after[|before|], hosts, Incidents.Strip(host), ok, key, reading + 1)
      ensures Tells(before, after, reading, id, host, ok, hosts)
    {
    }

    lemma HostsStayLonger(a: map<nat, Host>, b: map<nat, Host>, c: map<nat, Host>, id: nat)
      requires (forall i :: i in a ==> i in b && b[i] == a[i]) && (b == c || HostsStay(b, c))
      ensures HostsStay(a, c) && (id in b ==> id in c && c[id] == b[id])
    {
    }

    lemma RunIsLeft(e: Event, host: nat, id: string, ok: bool, key: DedupKey, reading: nat, log: seq<string>)
      requires Recorded(e, host, "runbook", if ok then "LOW" else "MEDIUM", Some(key), reading)
      requires key.OfRunbook? && key.runbook == id && id in log
      ensures OfRun(e, log) && e.host == host
    {
    }

    /**
     A whole cascade from one event, while the clock advances less than the period of any rule over as
     many readings as a cascade can make: it ends within them, it starts each (rule, host) pair at
     most once, and it runs no program that a rule did not start.
     */
    method Cascade(host: nat, kind: string, severity: string, dedup: Option<DedupKey>, hours: int)
      returns (duplicate: bool)
      requires Valid() && CalmBetween(tick, tick + Horizon())
      modifies this
      ensures Valid() && old(started) <= started && old(log) <= log && old(events) <= events
      ensures tick <= old(tick) + Horizon()
      ensures Distinct(started[|old(started)|..])
      ensures forall k <- started[|old(started)|..] :: Indexed(k) && k.1 in names
      ensures StartsFor(old(started), started, kind) && (severity == "LOW" ==> started == old(started))
      ensures log == old(log) + Programs(started[|old(started)|..])
      ensures |log| - |old(log)| <= |started| - |old(started)|
      ensures forall i :: |old(events)| < i < |events| ==> OfRun(events[i], log)
      ensures |events| - |old(events)| <= |log| - |old(log)| + 1
      ensures !enabled ==> started == old(started)
      ensures duplicate ==> started == old(started) && log == old(log) && events == old(events)
      ensures !duplicate && enabled ==>
              AllConsidered(old(Seen()), Seen(), kind, Graded(severity), Text(old(NameOf(host))))
    {
      hide Grew, Valid, CalmBetween, Reserve, Pairs, Considered, Recorded, StartsFor;
      BeginCascade();
      ghost var here := Seen();
      duplicate := NoteEvent(host, kind, severity, dedup, hours, 0);
      ConsideredSince(old(Seen()), here, Seen(), kind, Graded(severity), Text(old(NameOf(host))));
      AfterCascade(here);
    }

    ghost method BeginCascade()
      requires Valid() && CalmBetween(tick, tick + Horizon())
      modifies this`base, this`limit, this`first, this`taken
      ensures Valid() && Calm() && Fits(0 + |rules| + 2) && first == |started| && limit == tick + Horizon()
    {
      base, limit, first, taken := tick, tick + Horizon(), |started|, {};
      assert started[first..] == [];
      assert |rules| + 2 == 0 + |rules| + 2;
    }

    lemma AfterCascade(a: Trace)
      requires Valid() && Grew(a, Seen(), [], 1) && a.first == |a.started| && Fits(0)
      ensures a.started <= started && a.log <= log && a.events <= events && tick <= a.limit
      ensures Distinct(started[|a.started|..]) && forall k <- started[|a.started|..] :: Indexed(k) && k.1 in names
      ensures log == a.log + Programs(started[|a.started|..])
      ensures forall i :: |a.events| < i < |events| ==> OfRun(events[i], log)
      ensures |log| - |a.log| <= |started| - |a.started| && |events| - |a.events| <= |log| - |a.log| + 1
      ensures !enabled ==> started == a.started
    {
      hide Untouched, Programs, OfRun;
    }
  }
}
