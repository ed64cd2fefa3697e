/** load_config and save_config: what survives a save followed by a load. */
module ConfigFile {
  import opened Wrappers
  import opened Json
  import opened JsonPaths
  import opened Secrets
  import opened Config

  // ---------- _env_overrides ----------

  const ENV_PREFIX := "NETPULSE_"

  /** s.split("_") */
  function Split(s: string): (r: seq<string>)
    ensures r != []
    ensures forall i :: 0 <= i < |r| ==> '_' !in r[i]
  {
    if s == "" then [""]
    else
      var rest := Split(s[1..]);
      if s[0] == '_' then [""] + rest else [[s[0]] + rest[0]] + rest[1..]
  }

  function LowerChar(c: char): char { if 'A' <= c <= 'Z' then (c as int + 32) as char else c }

  /** s.lower(), on ASCII. */
  function Lower(s: string): (r: string)
    ensures |r| == |s| && forall i :: 0 <= i < |s| ==> r[i] == LowerChar(s[i])
  {
    seq(|s|, i requires 0 <= i < |s| => LowerChar(s[i]))
  }

  /** One variable written into the nested dict; None where a non-dict stands in the way and the code raises. */
  function SetPath(node: Json, keys: seq<string>, v: Json): (r: Option<Json>)
    requires keys != []
    ensures r.Some? ==> r.value.Obj? && node.Obj? && r.value.fields.Keys == node.fields.Keys + {keys[0]}
    decreases |keys|
  {
    if !node.Obj? then None
    else if |keys| == 1 then
      if keys[0] in node.fields && node.fields[keys[0]].Obj? then Some(node)
      else Some(Obj(node.fields[keys[0] := v]))
    else
      match SetPath(if keys[0] in node.fields then node.fields[keys[0]] else EMPTY, keys[1..], v)
      case None => None
      case Some(child) => Some(Obj(node.fields[keys[0] := child]))
  }

  /** The variables, in order, into one tree; parse stands for `json.loads(v) or v`. */
  function EnvOverrides(raw: seq<(string, string)>, parse: string -> Json): (r: Option<Json>)
    ensures r.Some? ==> r.value.Obj?
  {
    if raw == [] then Some(EMPTY)
    else
      var (name, v) := raw[|raw| - 1];
      match EnvOverrides(raw[..|raw| - 1], parse)
      case None => None
      case Some(out) =>
        if ENV_PREFIX <= name then SetPath(out, Split(Lower(name[|ENV_PREFIX|..])), parse(v)) else Some(out)
  }

  predicate NoUnderscores(e: Json)
    requires e.Obj?
  {
    forall k :: k in e.fields ==> '_' !in k
  }

  /**
   No variable ever overrides a top-level key with an underscore: NETPULSE_WEB_PORT sets `port` of
   a section `web` and leaves web_port alone.
   */
  lemma {:induction false} EnvNeverHasUnderscores(raw: seq<(string, string)>, parse: string -> Json)
    requires EnvOverrides(raw, parse).Some?
    ensures NoUnderscores(EnvOverrides(raw, parse).value)
  {
    if raw != [] {
      EnvNeverHasUnderscores(raw[..|raw| - 1], parse);
    }
  }

  // ---------- load_config ----------

  /** What a run of the program fixes: table, defaults, DPAPI and environment. */
  datatype Setup = Setup(table: Table, defaults: Json, dpapi: Dpapi, env: Json)

  ghost predicate GoodSetup(u: Setup)
  {
    GoodDefaults(u.table, u.defaults) && Faithful(u.dpapi) && u.env.Obj? && NoUnderscores(u.env)
    && !Checked(u.table, "web_token")
  }

  /** The defaults with the file merged in; a file that is missing, unreadable or not a dict adds nothing. */
  function WithFile(defaults: Json, file: Option<Json>): (r: Json)
    requires defaults.Obj?
    ensures r.Obj?
  {
    if file.Some? && file.value.Obj? then Merge(defaults, file.value) else defaults
  }

  predicate WantsToken(cfg: Json)
    requires cfg.Obj?
  {
    var auth := Get(cfg, "web_auth_enabled");
    var token := Get(cfg, "web_token");
    auth.Some? && Truthy(auth.value) && (token.None? || !Truthy(token.value))
  }

  /** The generated token, a fresh non-empty uuid4().hex. */
  function WithToken(cfg: Json, uuid: string): (r: Json)
    requires cfg.Obj?
    ensures r.Obj?
  {
    if WantsToken(cfg) then Obj(cfg.fields["web_token" := Str(uuid)]) else cfg
  }

  /** A loaded tree before the token. */
  function Settled(u: Setup, file: Option<Json>): (r: Json)
    requires GoodDefaults(u.table, u.defaults) && u.env.Obj?
    ensures r.Obj?
  {
    Validated(u.table, u.defaults, Decrypt(u.dpapi, Merge(WithFile(u.defaults, file), u.env)))
  }

  function Load(u: Setup, file: Option<Json>, uuid: string): (r: Json)
    requires GoodDefaults(u.table, u.defaults) && u.env.Obj?
    ensures r.Obj?
  {
    WithToken(Settled(u, file), uuid)
  }

  function Stored(u: Setup, cfg: Json): Json { Encrypt(u.dpapi, [], "", cfg) }

  // ---------- the file ----------

  /** What a file holds: the whole text of a tree, or some of it. */
  datatype Content = Whole(tree: Json) | Part

  /** A file, whether what it holds has reached the disk, and its permissions. */
  datatype File = File(content: Content, synced: bool, mode: nat)

  /** config.json, if it is there, and the temporary files beside it. */
  datatype Disk = Disk(target: Option<File>, temporaries: seq<File>)

  /** What json.load makes of config.json. */
  function ReadBack(target: Option<File>): Option<Json>
  {
    if target.Some? && target.value.content.Whole? then Some(target.value.content.tree) else None
  }

  /** The operations of save_config that can fail. */
  datatype Op = Create | Dump | Sync | Chmod | Replace | Unlink

  predicate Succeeds(fails: Op -> bool, target: Option<File>)
  {
    !fails(Create) && !fails(Dump) && !fails(Sync) && (target.Some? ==> !fails(Chmod)) && !fails(Replace)
  }

  const PRIVATE: nat := 0x180

  /** The file a save leaves: all of the tree, on the disk, with the permissions of the file it replaces. */
  function NewFile(tree: Json, target: Option<File>): File
  {
    File(Whole(tree), true, if target.Some? then target.value.mode else PRIVATE)
  }

  /** Whether config.json is the old file or the whole new one, on the disk, in every one of some states. */
  ghost predicate OldOrNew(states: seq<Disk>, target: Option<File>, whole: File)
  {
    forall d <- states :: d.target == target || d.target == Some(whole)
  }

  lemma NothingYet(target: Option<File>, whole: File)
    ensures OldOrNew([], target, whole)
  {
  }

  /** config.json and the steps that read and write it. */
  class ConfigFile {
    var disk: Disk
    /** The disk after every single operation so far. */
    ghost var history: seq<Disk>

    constructor (target: Option<File>)
      ensures disk == Disk(target, []) && history == []
    {
      disk, history := Disk(target, []), [];
    }

    /** One operation on the disk, in a save that began at `from`. */
    method Record(d: Disk, ghost from: nat, ghost target: Option<File>, ghost whole: File)
      requires from <= |history| && OldOrNew(history[from..], target, whole)
      requires d.target == target || d.target == Some(whole)
      modifies this
      ensures disk == d && history == old(history) + [d] && OldOrNew(history[from..], target, whole)
    {
      assert (history + [d])[from..] == history[from..] + [d];
      disk, history := d, history + [d];
    }

    /**
     save_config.  After each of its operations, and so wherever a crash or the loss of power ends it,
     config.json is the old file or the whole new one; it is the new one exactly when nothing failed; and
     a temporary file is left only when removing it failed too.
     */
    method SaveConfig(u: Setup, cfg: Json, fails: Op -> bool) returns (saved: bool)
      modifies this
      ensures saved <==> Succeeds(fails, old(disk.target))
      ensures saved ==> disk == Disk(Some(NewFile(Stored(u, cfg), old(disk.target))), old(disk.temporaries))
      ensures !saved ==> disk.target == old(disk.target)
      ensures saved <==> !fails(Create) && !fails(Dump) && !fails(Sync) && !fails(Replace)
                         && (old(disk.target).Some? ==> !fails(Chmod))
      ensures saved ==> disk.target.Some? && disk.target.value.content == Whole(Stored(u, cfg))
                        && disk.target.value.synced
                        && disk.target.value.mode == (if old(disk.target).Some? then old(disk.target).value.mode
                                                      else 0x180)
      ensures disk.temporaries == old(disk.temporaries) || (!saved && !fails(Create) && fails(Unlink))
      ensures old(history) <= history
      ensures OldOrNew(history[|old(history)|..], old(disk.target), NewFile(Stored(u, cfg), old(disk.target)))
    {
      hide Encrypt, OldOrNew;
      NothingYet(disk.target, NewFile(Stored(u, cfg), disk.target));
      assert history[|history|..] == [];
      var target, others := disk.target, disk.temporaries;
      var tree := Encrypt(u.dpapi, [], "", cfg);
      ghost var from, whole := |history|, NewFile(Stored(u, cfg), disk.target);
      if fails(Create) { return false; }
      var f := File(Part, false, PRIVATE);
      Record(Disk(target, others + [f]), from, target, whole);
      if !fails(Dump) {
        f := f.(content := Whole(tree));
        Record(Disk(target, others + [f]), from, target, whole);
        if !fails(Sync) {
          f := f.(synced := true);
          Record(Disk(target, others + [f]), from, target, whole);
          if target.None? || !fails(Chmod) {
            if target.Some? {
              f := f.(mode := target.value.mode);
              Record(Disk(target, others + [f]), from, target, whole);
            }
            if !fails(Replace) {
              Record(Disk(Some(f), others), from, target, whole);
              return true;
            }
          }
        }
      }
      if !fails(Unlink) { Record(Disk(target, others), from, target, whole); }
      return false;
    }

    /** load_config; the file is written exactly when a token was made and could be saved. */
    method LoadConfig(u: Setup, uuid: string, fails: Op -> bool) returns (cfg: Json)
      requires GoodDefaults(u.table, u.defaults) && u.env.Obj?
      modifies this
      ensures cfg == Load(u, ReadBack(old(disk.target)), uuid)
      ensures if WantsToken(Settled(u, ReadBack(old(disk.target)))) && Succeeds(fails, old(disk.target))
              then disk.target == Some(NewFile(Stored(u, cfg), old(disk.target)))
              else disk.target == old(disk.target)
    {
      cfg := u.defaults;
      var file := ReadBack(disk.target);
      if file.Some? && file.value.Obj? {
        cfg := DeepMerge(cfg, file.value);
      }
      cfg := DeepMerge(cfg, u.env);
      cfg := Decrypt(u.dpapi, cfg);
      cfg := Validate(u.table, u.defaults, cfg);
      if WantsToken(cfg) {
        cfg := Obj(cfg.fields["web_token" := Str(uuid)]);
        var _ := SaveConfig(u, cfg, fails);
      }
    }
  }

  // ---------- validation settles ----------

  lemma FixSectionGet(d: Json, keys: seq<string>, sec: Json, f: string)
    requires d.Obj? && sec.Obj? && forall j :: 0 <= j < |keys| ==> NumOk(Get(d, keys[j]))
    ensures Get(FixSection(d, keys, sec), f) == if f in keys && !NumOk(Get(sec, f)) then Get(d, f) else Get(sec, f)
    ensures f in keys ==> NumOk(Get(d, f))
  {
    if f in keys { var j :| 0 <= j < |keys| && keys[j] == f; }
  }

  /** A fixed section, overridden again by what had overridden it, is fixed to itself. */
  lemma FixSectionSettles(d: Json, keys: seq<string>, w: Option<Json>, e: Json)
    requires d.Obj? && e.Obj? && forall j :: 0 <= j < |keys| ==> NumOk(Get(d, keys[j]))
    ensures var v := FixSection(d, keys, Put(w, e)); FixSection(d, keys, Merge(v, e)) == v
  {
    var u := Put(w, e);
    var v := FixSection(d, keys, u);
    var m := Merge(v, e);
    forall f ensures Get(FixSection(d, keys, m), f) == Get(v, f) {
      FixSectionGet(d, keys, u, f);
      FixSectionGet(d, keys, m, f);
      MergeAt(v, e, f);
      if f in e.fields {
        var old_ := if w.Some? && w.value.Obj? then Get(w.value, f) else None;
        if w.Some? && w.value.Obj? { MergeAt(w.value, e, f); PutIdempotent(old_, e.fields[f]); }
        else { PutIdempotent(Some(e.fields[f]), e.fields[f]); PutSelf(e.fields[f]); }
      }
    }
    SameObject(FixSection(d, keys, m), v);
  }

  lemma PutSelf(e: Json)
    ensures Put(Some(e), e) == e
  {
    PutIdempotent(None, e);
  }

  lemma FixSectionIdempotent(d: Json, keys: seq<string>, sec: Json)
    requires d.Obj? && sec.Obj? && forall j :: 0 <= j < |keys| ==> NumOk(Get(d, keys[j]))
    ensures FixSection(d, keys, FixSection(d, keys, sec)) == FixSection(d, keys, sec)
    ensures FixSection(d, keys, d) == d
  {
    var v := FixSection(d, keys, sec);
    forall f ensures Get(FixSection(d, keys, v), f) == Get(v, f) {
      FixSectionGet(d, keys, sec, f);
      FixSectionGet(d, keys, v, f);
    }
    SameObject(FixSection(d, keys, v), v);
    forall f ensures Get(FixSection(d, keys, d), f) == Get(d, f) { FixSectionGet(d, keys, d, f); }
    SameObject(FixSection(d, keys, d), d);
  }

  lemma FixIdempotent(t: Table, d: Json, k: string, v: Option<Json>)
    requires GoodDefaults(t, d) && Checked(t, k)
    ensures Fix(t, d, k, Some(Fix(t, d, k, v))) == Fix(t, d, k, v)
  {
    if k != "web_port" && k != "web_host" {
      GoodRowOf(t, d, k);
      var keys := RowOf(t, k).value;
      if keys != [] {
        FixSectionIdempotent(d.fields[k], keys, if v.Some? && v.value.Obj? then v.value else d.fields[k]);
      }
    }
  }

  /** _validate is idempotent. */
  lemma ValidateIdempotent(t: Table, d: Json, cfg: Json)
    requires GoodDefaults(t, d) && cfg.Obj?
    ensures Validated(t, d, Validated(t, d, cfg)) == Validated(t, d, cfg)
  {
    var v := Validated(t, d, cfg);
    forall k ensures Get(Validated(t, d, v), k) == Get(v, k) {
      ValidatedGet(t, d, cfg, k);
      ValidatedGet(t, d, v, k);
      if Checked(t, k) { FixIdempotent(t, d, k, Get(cfg, k)); }
    }
    SameObject(Validated(t, d, v), v);
  }

  /** What a checked key holds after validation, overridden again by the same value, validates to itself. */
  lemma FixSettles(t: Table, d: Json, k: string, w: Option<Json>, e: Json)
    requires GoodDefaults(t, d) && Checked(t, k)
    ensures var v := Fix(t, d, k, Some(Put(w, e)));
            Fix(t, d, k, Some(Put(Some(v), e))) == v
  {
    var v := Fix(t, d, k, Some(Put(w, e)));
    if e.Obj? {
      if k != "web_port" && k != "web_host" {
        GoodRowOf(t, d, k);
        var keys := RowOf(t, k).value;
        if keys != [] { FixSectionSettles(d.fields[k], keys, w, e); }
      }
    } else {
      assert Put(w, e) == e && Put(Some(v), e) == e;
    }
  }

  /** Overriding and validating a loaded configuration again changes nothing. */
  lemma LoadSettles(t: Table, d: Json, w: Json, e: Json, uuid: string)
    requires GoodDefaults(t, d) && w.Obj? && e.Obj? && NoUnderscores(e) && !Checked(t, "web_token") && uuid != ""
    ensures var c := WithToken(Validated(t, d, Merge(w, e)), uuid);
            Validated(t, d, Merge(c, e)) == c && !WantsToken(c)
  {
    var v := Validated(t, d, Merge(w, e));
    var c := WithToken(v, uuid);
    assert '_' in "web_token" by { assert "web_token"[3] == '_'; }
    forall k ensures Get(Validated(t, d, Merge(c, e)), k) == Get(c, k) {
      ValidatedGet(t, d, Merge(w, e), k);
      ValidatedGet(t, d, Merge(c, e), k);
      MergeAt(w, e, k);
      MergeAt(c, e, k);
      if k == "web_token" {
      } else if k !in e.fields {
        if Checked(t, k) { FixIdempotent(t, d, k, Get(w, k)); }
      } else if Checked(t, k) {
        FixSettles(t, d, k, Get(w, k), e.fields[k]);
      } else {
        PutIdempotent(Get(w, k), e.fields[k]);
      }
    }
    SameObject(Validated(t, d, Merge(c, e)), c);
  }

  // ---------- validation keeps the keys of the defaults ----------

  lemma FixSectionCovers(d: Json, keys: seq<string>, sec: Json)
    requires d.Obj? && sec.Obj? && forall j :: 0 <= j < |keys| ==> NumOk(Get(d, keys[j]))
    requires Covers(d, sec)
    ensures Covers(d, FixSection(d, keys, sec))
  {
    var v := FixSection(d, keys, sec);
    forall f | f in d.fields
      ensures f in v.fields && (d.fields[f].Obj? && v.fields[f].Obj? ==> Covers(d.fields[f], v.fields[f]))
    {
      FixSectionGet(d, keys, sec, f);
    }
  }

  lemma ValidateCovers(t: Table, d: Json, y: Json)
    requires GoodDefaults(t, d) && y.Obj? && Covers(d, y)
    ensures Covers(d, Validated(t, d, y))
  {
    var v := Validated(t, d, y);
    forall k | k in d.fields
      ensures k in v.fields && (d.fields[k].Obj? && v.fields[k].Obj? ==> Covers(d.fields[k], v.fields[k]))
    {
      ValidatedGet(t, d, y, k);
      if Checked(t, k) && k != "web_port" && k != "web_host" {
        GoodRowOf(t, d, k);
        var keys := RowOf(t, k).value;
        if keys != [] {
          CoversSelf(d.fields[k]);
          if y.fields[k].Obj? { FixSectionCovers(d.fields[k], keys, y.fields[k]); }
        }
      }
    }
  }

  lemma TokenCovers(d: Json, y: Json, uuid: string)
    requires d.Obj? && y.Obj? && Covers(d, y)
    ensures Covers(d, WithToken(y, uuid))
  {
  }

  // ---------- where the environment has a dict, so has what it was merged into ----------

  /** Wherever d and e both have an object, y has one too. */
  predicate Shaped(d: Json, e: Json, y: Json)
    requires d.Obj? && e.Obj? && y.Obj?
    decreases d
  {
    forall k :: k in d.fields && k in e.fields && d.fields[k].Obj? && e.fields[k].Obj? ==>
      k in y.fields && y.fields[k].Obj? && Shaped(d.fields[k], e.fields[k], y.fields[k])
  }

  lemma {:induction false} ShapedSelf(d: Json, e: Json)
    requires d.Obj? && e.Obj?
    ensures Shaped(d, e, e)
    decreases d
  {
    forall k | k in d.fields && k in e.fields && d.fields[k].Obj? && e.fields[k].Obj?
      ensures Shaped(d.fields[k], e.fields[k], e.fields[k])
    {
      ShapedSelf(d.fields[k], e.fields[k]);
    }
  }

  lemma {:induction false} MergeShapes(d: Json, w: Json, e: Json)
    requires d.Obj? && w.Obj? && e.Obj?
    ensures Shaped(d, e, Merge(w, e))
    decreases d
  {
    var y := Merge(w, e);
    forall k | k in d.fields && k in e.fields && d.fields[k].Obj? && e.fields[k].Obj?
      ensures k in y.fields && y.fields[k].Obj? && Shaped(d.fields[k], e.fields[k], y.fields[k])
    {
      MergeAt(w, e, k);
      if k in w.fields && w.fields[k].Obj? {
        MergeShapes(d.fields[k], w.fields[k], e.fields[k]);
      } else {
        ShapedSelf(d.fields[k], e.fields[k]);
      }
    }
  }

  lemma {:induction false} EncryptShaped(p: Dpapi, place: seq<Place>, key: string, d: Json, e: Json, y: Json)
    requires d.Obj? && e.Obj? && y.Obj? && Shaped(d, e, y)
    ensures Shaped(d, e, Encrypt(p, place, key, y))
    decreases d
  {
    forall k | k in d.fields && k in e.fields && d.fields[k].Obj? && e.fields[k].Obj?
      ensures Shaped(d.fields[k], e.fields[k], Encrypt(p, place + [Field(k)], k, y.fields[k]))
    {
      EncryptShaped(p, place + [Field(k)], k, d.fields[k], e.fields[k], y.fields[k]);
    }
  }

  lemma {:induction false} DecryptShaped(p: Dpapi, d: Json, e: Json, y: Json)
    requires d.Obj? && e.Obj? && y.Obj? && Shaped(d, e, y)
    ensures Shaped(d, e, Decrypt(p, y))
    decreases d
  {
    forall k | k in d.fields && k in e.fields && d.fields[k].Obj? && e.fields[k].Obj?
      ensures Shaped(d.fields[k], e.fields[k], Decrypt(p, y.fields[k]))
    {
      DecryptShaped(p, d.fields[k], e.fields[k], y.fields[k]);
    }
  }

  lemma {:induction false} MergedShaped(d: Json, e: Json, y: Json)
    requires d.Obj? && e.Obj? && y.Obj? && Shaped(d, e, y)
    ensures Shaped(d, e, Merge(d, y))
    decreases d
  {
    forall k | k in d.fields && k in e.fields && d.fields[k].Obj? && e.fields[k].Obj?
      ensures k in Merge(d, y).fields && Merge(d, y).fields[k].Obj?
              && Shaped(d.fields[k], e.fields[k], Merge(d, y).fields[k])
    {
      MergeAt(d, y, k);
      MergedShaped(d.fields[k], e.fields[k], y.fields[k]);
    }
  }

  lemma ValidateShaped(t: Table, d: Json, e: Json, y: Json)
    requires GoodDefaults(t, d) && e.Obj? && y.Obj? && Shaped(d, e, y)
    ensures Shaped(d, e, Validated(t, d, y))
  {
    var v := Validated(t, d, y);
    forall k | k in d.fields && k in e.fields && d.fields[k].Obj? && e.fields[k].Obj?
      ensures k in v.fields && v.fields[k].Obj? && Shaped(d.fields[k], e.fields[k], v.fields[k])
    {
      ValidatedGet(t, d, y, k);
      if Checked(t, k) {
        GoodRowOf(t, d, k);
        var keys := RowOf(t, k).value;
        forall f ensures Get(v.fields[k], f) == if f in keys && !NumOk(Get(y.fields[k], f)) then Get(d.fields[k], f)
                                                else Get(y.fields[k], f)
        {
          FixSectionGet(d.fields[k], keys, y.fields[k], f);
        }
        SectionShaped(d.fields[k], keys, e.fields[k], y.fields[k]);
      }
    }
  }

  lemma SectionShaped(d: Json, keys: seq<string>, e: Json, y: Json)
    requires d.Obj? && y.Obj? && e.Obj? && forall j :: 0 <= j < |keys| ==> NumOk(Get(d, keys[j]))
    requires Shaped(d, e, y)
    ensures Shaped(d, e, FixSection(d, keys, y))
  {
    var v := FixSection(d, keys, y);
    forall f | f in d.fields && f in e.fields && d.fields[f].Obj? && e.fields[f].Obj?
      ensures f in v.fields && v.fields[f].Obj? && Shaped(d.fields[f], e.fields[f], v.fields[f])
    {
      FixSectionGet(d, keys, y, f);
    }
  }

  /** Merging on top keeps the keys of the defaults where the shapes agree. */
  lemma {:induction false} ShapedMergeCovers(d: Json, y: Json, e: Json)
    requires d.Obj? && y.Obj? && e.Obj? && Covers(d, y) && Shaped(d, e, y)
    ensures Covers(d, Merge(y, e))
    decreases d
  {
    var m := Merge(y, e);
    forall k | k in d.fields
      ensures k in m.fields && (d.fields[k].Obj? && m.fields[k].Obj? ==> Covers(d.fields[k], m.fields[k]))
    {
      MergeAt(y, e, k);
      if d.fields[k].Obj? && k in e.fields && e.fields[k].Obj? {
        ShapedMergeCovers(d.fields[k], y.fields[k], e.fields[k]);
      }
    }
  }

  // ---------- save, then load ----------

  lemma FileCovers(d: Json, file: Option<Json>)
    requires d.Obj?
    ensures Covers(d, WithFile(d, file))
  {
    if file.Some? && file.value.Obj? { MergeCovers(d, file.value); } else { CoversSelf(d); }
  }

  /** Loading any file gives the same tree as loading it decrypted into the decrypted environment. */
  lemma LoadDecrypted(u: Setup, file: Option<Json>, uuid: string)
    requires GoodSetup(u)
    ensures Load(u, file, uuid)
         == WithToken(Validated(u.table, u.defaults, Merge(Decrypt(u.dpapi, WithFile(u.defaults, file)),
                                                           Decrypt(u.dpapi, u.env))), uuid)
    ensures NoUnderscores(Decrypt(u.dpapi, u.env))
  {
    DecryptMerge(u.dpapi, WithFile(u.defaults, file), u.env);
  }

  /** A loaded tree has an object wherever the defaults and the environment both have one. */
  lemma LoadedShaped(u: Setup, file: Option<Json>, uuid: string)
    requires GoodSetup(u)
    ensures Shaped(u.defaults, u.env, Load(u, file, uuid))
  {
    hide GoodRow, RowOf, Merge, Decrypt, Validated, Faithful, WithFile;
    var m := Merge(WithFile(u.defaults, file), u.env);
    MergeShapes(u.defaults, WithFile(u.defaults, file), u.env);
    DecryptShaped(u.dpapi, u.defaults, u.env, m);
    ValidateShaped(u.table, u.defaults, u.env, Decrypt(u.dpapi, m));
    assert '_' in "web_token" by { assert "web_token"[3] == '_'; }
  }

  /** Reloading a saved tree that has an object wherever defaults and environment do covers the defaults. */
  lemma ReloadCovers(u: Setup, cfg: Json, uuid: string)
    requires GoodSetup(u) && cfg.Obj? && Shaped(u.defaults, u.env, cfg)
    ensures Covers(u.defaults, Load(u, Some(Stored(u, cfg)), uuid))
  {
    hide Covers, Shaped, GoodRow, RowOf, Merge, Encrypt, Decrypt, WithToken, Validated, Faithful;
    var d, e := u.defaults, u.env;
    var base := Merge(d, Stored(u, cfg));
    EncryptShaped(u.dpapi, [], "", d, e, cfg);
    MergedShaped(d, e, Stored(u, cfg));
    MergeCovers(d, Stored(u, cfg));
    ShapedMergeCovers(d, base, e);
    DecryptCovers(u.dpapi, d, Merge(base, e));
    ValidateCovers(u.table, d, Decrypt(u.dpapi, Merge(base, e)));
    TokenCovers(d, Validated(u.table, d, Decrypt(u.dpapi, Merge(base, e))), uuid);
  }

  /** Where the loaded tree covers the defaults and is stable, saving and loading it gives it back. */
  lemma ReloadRestores(u: Setup, file: Option<Json>, uuid: string, later: string)
    requires GoodSetup(u) && uuid != ""
    requires Stable(u.dpapi, Load(u, file, uuid)) && Covers(u.defaults, Load(u, file, uuid))
    ensures Load(u, Some(Stored(u, Load(u, file, uuid))), later) == Load(u, file, uuid)
  {
    hide Covers, GoodRow, RowOf, Merge, Encrypt, Decrypt, Stable, Faithful, Validated;
    var d := u.defaults;
    var c := Load(u, file, uuid);
    var stored := Stored(u, c);
    var e := Decrypt(u.dpapi, u.env);
    EncryptCovers(u.dpapi, [], "", d, c);
    CoveredMerge(d, stored);
    DecryptEncryptIff(u.dpapi, [], "", c);
    LoadDecrypted(u, file, uuid);
    LoadDecrypted(u, Some(stored), later);
    LoadSettles(u.table, d, Decrypt(u.dpapi, WithFile(d, file)), e, uuid);
  }

  /**
   Save then load, under the same environment, is the identity on a loaded configuration with no
   text that looks encrypted and can be decrypted, exactly when the configuration still has every
   key of the defaults.
   */
  lemma SaveLoadIff(u: Setup, file: Option<Json>, uuid: string, later: string)
    requires GoodSetup(u) && uuid != "" && Stable(u.dpapi, Load(u, file, uuid))
    ensures Load(u, Some(Stored(u, Load(u, file, uuid))), later) == Load(u, file, uuid)
       <==> Covers(u.defaults, Load(u, file, uuid))
  {
    LoadedShaped(u, file, uuid);
    ReloadCovers(u, Load(u, file, uuid), later);
    if Covers(u.defaults, Load(u, file, uuid)) {
      ReloadRestores(u, file, uuid, later);
    }
  }

  /** Without environment overrides a loaded configuration has every key of the defaults. */
  lemma LoadedCovers(u: Setup, file: Option<Json>, uuid: string)
    requires GoodSetup(u) && u.env == EMPTY
    ensures Covers(u.defaults, Load(u, file, uuid))
  {
    var base := WithFile(u.defaults, file);
    FileCovers(u.defaults, file);
    assert Merge(base, EMPTY).fields == base.fields;
    DecryptCovers(u.dpapi, u.defaults, base);
    ValidateCovers(u.table, u.defaults, Decrypt(u.dpapi, base));
    TokenCovers(u.defaults, Validated(u.table, u.defaults, Decrypt(u.dpapi, base)), uuid);
  }

  /** Without environment overrides that is every configuration that load_config can produce. */
  lemma SaveLoadIdentity(u: Setup, file: Option<Json>, uuid: string, later: string)
    requires GoodSetup(u) && u.env == EMPTY && uuid != "" && Stable(u.dpapi, Load(u, file, uuid))
    ensures Load(u, Some(Stored(u, Load(u, file, uuid))), later) == Load(u, file, uuid)
  {
    LoadedCovers(u, file, uuid);
    ReloadRestores(u, file, uuid, later);
  }

  /** A valid section is as valid with other texts. */
  lemma SectionRetexted(d: Json, keys: seq<string>, sec: Json, other: Json)
    requires d.Obj? && sec.Obj? && other.Obj? && forall j :: 0 <= j < |keys| ==> NumOk(Get(d, keys[j]))
    requires FixSection(d, keys, sec) == sec && Retexted(sec, other)
    ensures FixSection(d, keys, other) == other
  {
    forall f ensures Get(FixSection(d, keys, other), f) == Get(other, f) {
      FixSectionGet(d, keys, sec, f);
      FixSectionGet(d, keys, other, f);
    }
    SameObject(FixSection(d, keys, other), other);
  }

  lemma FixRetexted(t: Table, d: Json, k: string, v: Json, other: Json)
    requires GoodDefaults(t, d) && Checked(t, k) && Fix(t, d, k, Some(v)) == v && Retexted(v, other)
    ensures Fix(t, d, k, Some(other)) == other
  {
    if k != "web_port" && k != "web_host" {
      GoodRowOf(t, d, k);
      var keys := RowOf(t, k).value;
      if keys != [] { SectionRetexted(d.fields[k], keys, v, other); }
    }
  }

  /** A configuration that validates to itself does so with other texts. */
  lemma ValidRetexted(t: Table, d: Json, c: Json, other: Json)
    requires GoodDefaults(t, d) && c.Obj? && other.Obj? && Validated(t, d, c) == c && Retexted(c, other)
    ensures Validated(t, d, other) == other
  {
    hide GoodDefaults, Fix, Checked;
    forall k ensures Get(Validated(t, d, other), k) == Get(other, k) {
      ValidatedGet(t, d, c, k);
      ValidatedGet(t, d, other, k);
      if Checked(t, k) { FixRetexted(t, d, k, c.fields[k], other.fields[k]); }
    }
    SameObject(Validated(t, d, other), other);
  }

  /** Reloading under an empty environment is decrypting what was encrypted, and a token where one is wanted. */
  lemma ReloadIsRoundTrip(u: Setup, file: Option<Json>, uuid: string, later: string)
    requires GoodSetup(u) && u.env == EMPTY && uuid != ""
    ensures var c := Load(u, file, uuid);
            Load(u, Some(Stored(u, c)), later) == WithToken(Decrypt(u.dpapi, Stored(u, c)), later) && !WantsToken(c)
  {
    hide Covers, GoodRow, RowOf, Encrypt, Decrypt, Faithful, Validated, Retexted;
    var d, c := u.defaults, Load(u, file, uuid);
    var stored := Stored(u, c);
    LoadedCovers(u, file, uuid);
    EncryptCovers(u.dpapi, [], "", d, c);
    CoveredMerge(d, stored);
    MergeNothing(stored);
    MergeNothing(c);
    MergeNothing(WithFile(d, file));
    LoadSettles(u.table, d, Decrypt(u.dpapi, WithFile(d, file)), EMPTY, uuid);
    MergeNothing(Decrypt(u.dpapi, WithFile(d, file)));
    RoundTripRetexts(u.dpapi, [], "", c);
    ValidRetexted(u.table, d, c, Decrypt(u.dpapi, stored));
  }

  lemma MergeNothing(j: Json)
    requires j.Obj?
    ensures Merge(j, EMPTY) == j
  {
    assert Merge(j, EMPTY).fields == j.fields;
  }

  /**
   Without environment overrides, save then load is the identity exactly when no text of the loaded
   configuration already looks encrypted and decrypts to another; the token of the later load is a
   uuid4().hex, which does not look encrypted.
   */
  lemma SaveLoadStableIff(u: Setup, file: Option<Json>, uuid: string, later: string)
    requires GoodSetup(u) && u.env == EMPTY && uuid != "" && later != "" && !IsEncrypted(later)
    ensures Load(u, Some(Stored(u, Load(u, file, uuid))), later) == Load(u, file, uuid)
       <==> Stable(u.dpapi, Load(u, file, uuid))
  {
    var c := Load(u, file, uuid);
    ReloadIsRoundTrip(u, file, uuid, later);
    DecryptEncryptIff(u.dpapi, [], "", c);
    TokenIsStable(u, c, later);
  }

  lemma TokenAgain(u: Setup, c: Json)
    requires c.Obj? && "web_token" in c.fields
    ensures "web_token" in Decrypt(u.dpapi, Stored(u, c)).fields
    ensures Decrypt(u.dpapi, Stored(u, c)).fields["web_token"]
         == Decrypt(u.dpapi, Encrypt(u.dpapi, [Field("web_token")], "web_token", c.fields["web_token"]))
  {
    assert [] + [Field("web_token")] == [Field("web_token")];
  }

  /** A token made anew is not what decryption has made of the old one. */
  lemma TokenIsStable(u: Setup, c: Json, later: string)
    requires Faithful(u.dpapi) && c.Obj? && later != "" && !IsEncrypted(later)
    ensures WithToken(Decrypt(u.dpapi, Stored(u, c)), later) == c && !WantsToken(c)
            ==> Decrypt(u.dpapi, Stored(u, c)) == c
  {
    var again := Decrypt(u.dpapi, Stored(u, c));
    if WantsToken(again) && WithToken(again, later) == c {
      assert c.fields["web_token"] == Str(later);
      if "web_token" in again.fields {
        LeafRoundTrip(u.dpapi, [Field("web_token")], "web_token", later);
        TokenAgain(u, c);
      } else {
        RoundTripRetexts(u.dpapi, [], "", c);
      }
    }
  }

  /**
   When it is not: a file whose section is no dict, overridden by variables that do not name every
   key of that section, loads without those keys, and gains them at the next load.
   */
  lemma OverrideCanLoseDefaults(u: Setup, file: Json, uuid: string, k: string, f: string)
    requires GoodSetup(u) && file.Obj? && !Checked(u.table, k) && k != "web_token"
    requires k in u.defaults.fields && u.defaults.fields[k].Obj? && f in u.defaults.fields[k].fields
    requires k in file.fields && !file.fields[k].Obj?
    requires k in u.env.fields && u.env.fields[k].Obj? && f !in u.env.fields[k].fields
    ensures !Covers(u.defaults, Load(u, Some(file), uuid))
  {
    var m := Merge(WithFile(u.defaults, Some(file)), u.env);
    MergeAt(u.defaults, file, k);
    MergeAt(WithFile(u.defaults, Some(file)), u.env, k);
    var v := Decrypt(u.dpapi, m);
    assert v.fields[k] == Decrypt(u.dpapi, u.env.fields[k]);
    ValidatedGet(u.table, u.defaults, v, k);
    assert Load(u, Some(file), uuid).fields[k] == v.fields[k];
  }
}
