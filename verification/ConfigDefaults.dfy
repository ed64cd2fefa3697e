/** The validated keys of the DEFAULTS of netpulse/config.py. */
module ConfigDefaults {
  import opened Json
  import opened Config

  const WATCHDOG := Obj(map["enabled" := Bool(false), "hosts" := Arr([Str("auto")]),
    "event_ids" := Arr([Num(41.0), Num(6008.0), Num(7.0), Num(153.0), Num(7031.0), Num(7034.0)]),
    "interval_min" := Num(15.0), "timeout_sec" := Num(25.0), "disk_free_pct" := Num(10.0),
    "ram_free_mb" := Num(500.0), "event_hours" := Num(24.0), "offline_after_polls" := Num(3.0)])

  const MTR := Obj(map["target" := Str("8.8.8.8"), "targets" := Arr([]), "max_hops" := Num(12.0),
    "cycle_sec" := Num(10.0), "pings_per_hop" := Num(2.0), "rotate_sec" := Num(600.0)])

  const QUOTA := Obj(map["daily_mb" := Num(0.0), "monthly_gb" := Num(0.0), "warn_pct" := Num(80.0)])

  const LAN := Obj(map["trusted_macs" := Arr([]), "auto_scan_min" := Num(10.0)])

  const ESCALATE := Obj(map["enabled" := Bool(false), "unack_min" := Num(30.0)])

  const VALIDATED: map<string, Json> := map[
    "web_host" := Str("127.0.0.1"),
    "web_port" := Num(8770.0),
    "ping_interval_sec" := Num(1.0),
    "db_cleanup_days" := Num(30.0),
    "watchdog" := WATCHDOG,
    "mtr" := MTR,
    "quota" := QUOTA,
    "lan" := LAN,
    "escalate" := ESCALATE
  ]

  /** Length and second letter of a name; they tell the rows of the table apart. */
  function Tag(name: string): (nat, char)
    requires |name| > 1
  {
    (|name|, name[1])
  }

  const TAGS := [(8, 'a'), (3, 't'), (5, 'u'), (3, 'a'), (8, 's'), (17, 'i'), (15, 'b')]

  lemma RowTag(i: nat)
    requires i < |NUMERIC|
    ensures |NUMERIC| == |TAGS| && |NUMERIC[i].0| > 1 && Tag(NUMERIC[i].0) == TAGS[i]
  {
    if i < 3 {
    } else if i < 5 {
    } else {
    }
  }

  lemma TagsDiffer(i: nat, j: nat)
    requires i < j < |TAGS|
    ensures TAGS[i] != TAGS[j]
  {
  }

  lemma NamesDiffer()
    ensures DistinctNames(NUMERIC)
  {
    hide Tag;
    forall i, j | 0 <= i < j < |NUMERIC| ensures NUMERIC[i].0 != NUMERIC[j].0 {
      RowTag(i);
      RowTag(j);
      TagsDiffer(i, j);
    }
  }

  lemma {:induction false} NotNamed(name: string)
    requires |name| > 1 && forall i :: 0 <= i < |TAGS| ==> TAGS[i] != Tag(name)
    ensures RowOf(NUMERIC, name).None?
  {
    forall i | 0 <= i < |NUMERIC| ensures NUMERIC[i].0 != name { RowTag(i); }
  }

  lemma SectionsAreGood()
    ensures GoodRow(Obj(VALIDATED), "watchdog", NUMERIC[0].1) && GoodRow(Obj(VALIDATED), "mtr", NUMERIC[1].1)
    ensures GoodRow(Obj(VALIDATED), "quota", NUMERIC[2].1) && GoodRow(Obj(VALIDATED), "lan", NUMERIC[3].1)
    ensures GoodRow(Obj(VALIDATED), "escalate", NUMERIC[4].1)
  {
  }

  lemma ScalarsAreGood()
    ensures PortOk(Get(Obj(VALIDATED), "web_port")) && HostOk(Get(Obj(VALIDATED), "web_host"))
    ensures NumOk(Get(Obj(VALIDATED), "ping_interval_sec")) && NumOk(Get(Obj(VALIDATED), "db_cleanup_days"))
  {
  }

  /** A good row of the validated keys stays good among others. */
  lemma RowCarries(others: map<string, Json>, name: string, keys: seq<string>)
    requires GoodRow(Obj(VALIDATED), name, keys)
    ensures GoodRow(Obj(others + VALIDATED), name, keys)
  {
  }

  lemma RowsAreGood(others: map<string, Json>, i: nat)
    requires i < |NUMERIC|
    ensures GoodRow(Obj(others + VALIDATED), NUMERIC[i].0, NUMERIC[i].1)
  {
    SectionsAreGood();
    ScalarsAreGood();
    assert GoodRow(Obj(VALIDATED), NUMERIC[5].0, NUMERIC[5].1) && GoodRow(Obj(VALIDATED), NUMERIC[6].0, NUMERIC[6].1);
    hide GoodRow;
    RowCarries(others, NUMERIC[i].0, NUMERIC[i].1);
  }

  /**
   The shipped defaults pass their own validation, whatever else they hold under keys _validate does
   not look at, and the token is not a validated key.
   */
  lemma DefaultsAreGood(others: map<string, Json>)
    ensures GoodDefaults(NUMERIC, Obj(others + VALIDATED)) && !Checked(NUMERIC, "web_token")
  {
    hide NumOk, PortOk, HostOk, RowOf, DistinctNames, GoodRow;
    NamesDiffer();
    NotNamed("web_port");
    NotNamed("web_host");
    NotNamed("web_token");
    ScalarsAreGood();
    forall i | 0 <= i < |NUMERIC| ensures GoodRow(Obj(others + VALIDATED), NUMERIC[i].0, NUMERIC[i].1) {
      RowsAreGood(others, i);
    }
  }
}
