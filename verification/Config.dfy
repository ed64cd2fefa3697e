/** netpulse/config.py: defaults, validation, environment overrides, load and save. */
module Config {
  import opened Wrappers
  import opened Json

  // ---------- _validate ----------

  predicate NumOk(v: Option<Json>) { v.Some? && v.value.Num? && v.value.n >= 0.0 }

  predicate PortOk(v: Option<Json>) { NumOk(v) && 1.0 <= v.value.n <= 65535.0 }

  predicate HostOk(v: Option<Json>) { v.Some? && v.value.Str? }

  /** The table `numeric`: sections with their numeric fields, and plain numbers. */
  const NUMERIC: seq<(string, seq<string>)> := [
    ("watchdog", ["interval_min", "timeout_sec", "disk_free_pct", "ram_free_mb", "event_hours", "offline_after_polls"]),
    ("mtr", ["max_hops", "cycle_sec", "pings_per_hop", "rotate_sec"]),
    ("quota", ["warn_pct"]),
    ("lan", ["auto_scan_min"]),
    ("escalate", ["unack_min"]),
    ("ping_interval_sec", []),
    ("db_cleanup_days", [])
  ]

  type Table = seq<(string, seq<string>)>

  predicate DistinctNames(t: Table)
  {
    forall i, j :: 0 <= i < j < |t| ==> t[i].0 != t[j].0
  }

  /** The row of a name, if it has one. */
  function RowOf(t: Table, name: string): (r: Option<seq<string>>)
    ensures r.Some? ==> (name, r.value) in t
    ensures r.None? ==> forall i :: 0 <= i < |t| ==> t[i].0 != name
  {
    if t == [] then None
    else if t[0].0 == name then Some(t[0].1)
    else RowOf(t[1..], name)
  }

  lemma {:induction false} RowAt(t: Table, i: nat)
    requires DistinctNames(t) && i < |t|
    ensures RowOf(t, t[i].0) == Some(t[i].1)
  {
    if i > 0 {
      assert forall j :: 0 <= j < |t[1..]| ==> t[1..][j] == t[j + 1];
      RowAt(t[1..], i - 1);
    }
  }

  predicate Checked(t: Table, k: string)
  {
    k == "web_port" || k == "web_host" || RowOf(t, k).Some?
  }

  /** Defaults that pass their own validation. */
  predicate GoodDefaults(t: Table, d: Json)
  {
    d.Obj? && DistinctNames(t) && RowOf(t, "web_port").None? && RowOf(t, "web_host").None?
    && PortOk(Get(d, "web_port")) && HostOk(Get(d, "web_host"))
    && forall i :: 0 <= i < |t| ==> GoodRow(d, t[i].0, t[i].1)
  }

  predicate GoodRow(d: Json, name: string, keys: seq<string>)
    requires d.Obj?
  {
    name in d.fields
    && if keys == [] then NumOk(Get(d, name))
       else d.fields[name].Obj? && forall j :: 0 <= j < |keys| ==> NumOk(Get(d.fields[name], keys[j]))
  }

  lemma GoodRowOf(t: Table, d: Json, k: string)
    requires GoodDefaults(t, d) && RowOf(t, k).Some?
    ensures GoodRow(d, k, RowOf(t, k).value)
  {
    var i :| 0 <= i < |t| && t[i] == (k, RowOf(t, k).value);
  }

  /** A section with its bad numeric fields set back. */
  function FixSection(d: Json, keys: seq<string>, sec: Json): (r: Json)
    requires d.Obj? && sec.Obj? && forall j :: 0 <= j < |keys| ==> NumOk(Get(d, keys[j]))
    ensures r.Obj?
  {
    Obj(map f | f in sec.fields.Keys + (set j | 0 <= j < |keys| :: keys[j]) ::
          if f in keys && !NumOk(Get(sec, f))
          then (assert exists j :: 0 <= j < |keys| && keys[j] == f && NumOk(Get(d, keys[j])); d.fields[f])
          else sec.fields[f])
  }

  /** What _validate leaves under a checked key. */
  function Fix(t: Table, d: Json, k: string, v: Option<Json>): Json
    requires GoodDefaults(t, d) && Checked(t, k)
  {
    if k == "web_port" then (if PortOk(v) then v.value else d.fields[k])
    else if k == "web_host" then (if HostOk(v) then v.value else d.fields[k])
    else
      GoodRowOf(t, d, k);
      var keys := RowOf(t, k).value;
      if keys == [] then (if NumOk(v) then v.value else d.fields[k])
      else if v.Some? && v.value.Obj? then FixSection(d.fields[k], keys, v.value)
      else d.fields[k]
  }

  function Names(t: Table): set<string> { {"web_port", "web_host"} + set i | 0 <= i < |t| :: t[i].0 }

  lemma NamesAreChecked(t: Table, k: string)
    ensures k in Names(t) <==> Checked(t, k)
  {
    if RowOf(t, k).Some? {
      var i :| 0 <= i < |t| && t[i] == (k, RowOf(t, k).value);
      assert t[i].0 == k;
    }
  }

  /** cfg after _validate(cfg), key by key. */
  function Validated(t: Table, d: Json, cfg: Json): (r: Json)
    requires GoodDefaults(t, d) && cfg.Obj?
    ensures r.Obj?
  {
    Obj(map k | k in cfg.fields.Keys + Names(t) :: ValidatedAt(t, d, cfg, k))
  }

  function ValidatedAt(t: Table, d: Json, cfg: Json, k: string): Json
    requires GoodDefaults(t, d) && cfg.Obj? && k in cfg.fields.Keys + Names(t)
  {
    NamesAreChecked(t, k);
    if Checked(t, k) then Fix(t, d, k, Get(cfg, k)) else cfg.fields[k]
  }

  lemma ValidatedGet(t: Table, d: Json, cfg: Json, k: string)
    requires GoodDefaults(t, d) && cfg.Obj?
    ensures Get(Validated(t, d, cfg), k) == if Checked(t, k) then Some(Fix(t, d, k, Get(cfg, k))) else Get(cfg, k)
  {
    NamesAreChecked(t, k);
  }

  method FixFields(d: Json, keys: seq<string>, sec: Json) returns (r: Json)
    requires d.Obj? && sec.Obj? && forall j :: 0 <= j < |keys| ==> NumOk(Get(d, keys[j]))
    ensures r == FixSection(d, keys, sec)
  {
    r := sec;
    for i := 0 to |keys|
      invariant r.Obj?
      invariant forall f :: Get(r, f) == if f in keys[..i] && !NumOk(Get(sec, f)) then Get(d, f) else Get(sec, f)
    {
      if !NumOk(Get(r, keys[i])) {
        r := Obj(r.fields[keys[i] := d.fields[keys[i]]]);
      }
    }
    assert keys[..|keys|] == keys;
    forall f ensures Get(r, f) == Get(FixSection(d, keys, sec), f) {
      if f in keys { var j :| 0 <= j < |keys| && keys[j] == f; }
    }
    SameObject(r, FixSection(d, keys, sec));
  }

  /** One row of the table: what is left under its name. */
  method FixRow(t: Table, d: Json, name: string, keys: seq<string>, v: Option<Json>) returns (r: Json)
    requires GoodDefaults(t, d) && RowOf(t, name) == Some(keys)
    ensures r == Fix(t, d, name, v)
  {
    GoodRowOf(t, d, name);
    if keys != [] {
      if v.None? || !v.value.Obj? { return d.fields[name]; }
      r := FixFields(d.fields[name], keys, v.value);
    } else {
      r := if NumOk(v) then v.value else d.fields[name];
    }
  }

  /** _validate: the two loops over the table. */
  method Validate(t: Table, d: Json, cfg: Json) returns (r: Json)
    requires GoodDefaults(t, d) && cfg.Obj?
    ensures r == Validated(t, d, cfg)
  {
    hide Validated, FixSection, GoodRow;
    r := cfg;
    if !PortOk(Get(r, "web_port")) { r := Obj(r.fields["web_port" := d.fields["web_port"]]); }
    if !HostOk(Get(r, "web_host")) { r := Obj(r.fields["web_host" := d.fields["web_host"]]); }
    for i := 0 to |t|
      invariant r.Obj?
      invariant forall k :: Get(r, k) == if k == "web_port" || k == "web_host" || RowOf(t[..i], k).Some?
                                         then Some(Fix'(t, d, k, Get(cfg, k))) else Get(cfg, k)
    {
      var (name, keys) := t[i];
      RowAt(t, i);
      RowsSoFar(t, i);
      var fixed := FixRow(t, d, name, keys, Get(r, name));
      r := Obj(r.fields[name := fixed]);
    }
    assert t[..|t|] == t;
    forall k ensures Get(r, k) == Get(Validated(t, d, cfg), k) { ValidatedGet(t, d, cfg, k); }
    SameObject(r, Validated(t, d, cfg));
  }

  /** Fix, with any value where it does not apply. */
  function Fix'(t: Table, d: Json, k: string, v: Option<Json>): Json
    requires GoodDefaults(t, d)
  {
    if Checked(t, k) then Fix(t, d, k, v) else Null
  }

  lemma RowsSoFar(t: Table, i: nat)
    requires DistinctNames(t) && i < |t|
    ensures RowOf(t[..i], t[i].0).None?
    ensures forall k :: RowOf(t[..i + 1], k).Some? <==> RowOf(t[..i], k).Some? || k == t[i].0
    ensures forall k :: RowOf(t[..i], k).Some? ==> RowOf(t, k).Some?
  {
    assert forall p :: p in t[..i] ==> p.0 != t[i].0;
    forall k ensures RowOf(t[..i + 1], k).Some? <==> RowOf(t[..i], k).Some? || k == t[i].0 {
      if RowOf(t[..i + 1], k).Some? {
        var j :| 0 <= j < i + 1 && t[..i + 1][j] == (k, RowOf(t[..i + 1], k).value);
        assert j < i ==> t[..i][j].0 == k;
      }
      if RowOf(t[..i], k).Some? {
        var j :| 0 <= j < i && t[..i][j] == (k, RowOf(t[..i], k).value);
        assert t[..i + 1][j].0 == k;
      }
      assert t[..i + 1][i] == t[i];
    }
    forall k | RowOf(t[..i], k).Some? ensures RowOf(t, k).Some? {
      var j :| 0 <= j < i && t[..i][j] == (k, RowOf(t[..i], k).value);
      assert t[j].0 == k;
    }
  }
}
