/**
 The configuration value by value: what a save stores of each, what a load takes it from, and what validation
 makes of it.
 */
module ConfigLeaves {
  import opened Wrappers
  import opened Json
  import opened JsonPaths
  import opened Secrets
  import opened Config
  import opened ConfigFile

  // ---------- what is stored ----------

  /** A text under a key of the two secret names, through any lists. */
  predicate SecretText(tree: Json, path: seq<Place>)
  {
    At(tree, path).Some? && At(tree, path).value.Str? && KeyOver(path, "") in {"web_token", "token"}
  }

  /** While protecting works, no secret text is stored as it is, but for one that is empty or looks encrypted. */
  lemma NoSecretInPlain(u: Setup, cfg: Json, path: seq<Place>)
    requires forall place: seq<Place>, s: string {:trigger u.dpapi.protect(place, s)} :: u.dpapi.protect(place, s).Some?
    requires SecretText(cfg, path)
    ensures SecretText(Stored(u, cfg), path)
    ensures var s, stored := At(cfg, path).value.s, At(Stored(u, cfg), path).value.s;
            if s == "" then stored == "" else "dpapi:" <= stored
  {
    EncryptAt(u.dpapi, [], "", cfg, path);
    assert [] + path == path;
  }

  /** Every other value is stored as it is: other texts, numbers, booleans, null. */
  lemma OthersAreStored(u: Setup, cfg: Json, path: seq<Place>)
    requires At(cfg, path).Some? && IsLeaf(At(cfg, path).value) && !SecretText(cfg, path)
    ensures At(Stored(u, cfg), path) == At(cfg, path)
  {
    EncryptAt(u.dpapi, [], "", cfg, path);
  }

  /** And nothing is stored that was not there. */
  lemma NothingElseStored(u: Setup, cfg: Json, path: seq<Place>)
    ensures At(Stored(u, cfg), path).Some? <==> At(cfg, path).Some?
  {
    EncryptAt(u.dpapi, [], "", cfg, path);
  }

  /** What a secret is stored as can be decrypted to it again; where protecting fails it is stored as it is. */
  lemma SecretsComeBack(u: Setup, cfg: Json, path: seq<Place>)
    requires Faithful(u.dpapi) && SecretText(cfg, path)
    ensures SecretText(Stored(u, cfg), path)
    ensures var s, stored := At(cfg, path).value.s, At(Stored(u, cfg), path).value.s;
            stored == s || ("dpapi:" <= stored && u.dpapi.unprotect(stored[6..]) == Some(s))
  {
    EncryptAt(u.dpapi, [], "", cfg, path);
    var s := At(cfg, path).value.s;
    var protected := u.dpapi.protect([] + path, s);
    if protected.Some? { assert ("dpapi:" + protected.value)[6..] == protected.value; }
  }

  // ---------- where a loaded value comes from ----------

  /** A path to a value that neither validation nor the token touches. */
  predicate Plain(u: Setup, path: seq<Place>)
  {
    path != [] && path[0].Field? && path[0].key != "web_token" && !Checked(u.table, path[0].key)
  }

  predicate HasLeaf(tree: Json, path: seq<Place>) { At(tree, path).Some? && IsLeaf(At(tree, path).value) }

  /** Validation and the token leave a plain path alone. */
  lemma PlainStays(u: Setup, cfg: Json, uuid: string, path: seq<Place>)
    requires GoodDefaults(u.table, u.defaults) && cfg.Obj? && Plain(u, path)
    ensures At(WithToken(Validated(u.table, u.defaults, cfg), uuid), path) == At(cfg, path)
  {
    ValidatedGet(u.table, u.defaults, cfg, path[0].key);
  }

  /** The value of the file, or else that of the defaults. */
  function Saved(u: Setup, file: Option<Json>, path: seq<Place>): Option<Json>
  {
    if file.Some? && file.value.Obj? && !Silent(file.value, path) then At(file.value, path) else At(u.defaults, path)
  }

  lemma SavedIs(u: Setup, file: Option<Json>, path: seq<Place>)
    requires u.defaults.Obj? && Saved(u, file, path).Some? && IsLeaf(Saved(u, file, path).value)
    ensures At(WithFile(u.defaults, file), path) == Saved(u, file, path)
  {
    if file.Some? && file.value.Obj? {
      if Silent(file.value, path) { MergeKeeps(u.defaults, file.value, path); }
      else { MergeTakes(u.defaults, file.value, path); }
    }
  }

  /**
   Precedence: a value of the environment goes before one of the file, and that before the default; the
   value taken is decrypted if it can be.
   */
  lemma LoadPrecedence(u: Setup, file: Option<Json>, uuid: string, path: seq<Place>)
    requires GoodDefaults(u.table, u.defaults) && u.env.Obj? && Plain(u, path)
    ensures HasLeaf(u.env, path) ==>
              At(Load(u, file, uuid), path).Some?
              && LoadedLeaf(u.dpapi, At(u.env, path).value, At(Load(u, file, uuid), path).value)
    ensures Silent(u.env, path) && Saved(u, file, path).Some? && IsLeaf(Saved(u, file, path).value) ==>
              At(Load(u, file, uuid), path).Some?
              && LoadedLeaf(u.dpapi, Saved(u, file, path).value, At(Load(u, file, uuid), path).value)
  {
    hide Validated, Decrypt, Merge, LoadedLeaf, WithToken, Silent, Saved;
    var base := WithFile(u.defaults, file);
    var merged := Merge(base, u.env);
    PlainStays(u, Decrypt(u.dpapi, merged), uuid, path);
    DecryptAt(u.dpapi, merged, path);
    if HasLeaf(u.env, path) {
      MergeTakes(base, u.env, path);
      DecryptLeafIs(u.dpapi, At(u.env, path).value);
    }
    if Silent(u.env, path) && Saved(u, file, path).Some? && IsLeaf(Saved(u, file, path).value) {
      SavedIs(u, file, path);
      MergeKeeps(base, u.env, path);
      DecryptLeafIs(u.dpapi, Saved(u, file, path).value);
    }
  }

  // ---------- the token ----------

  /**
   Where the interface asks for a token there is one after a load: the one stored, unless it is missing or
   empty; a token that is there is not replaced, and none is made where none is asked for.
   */
  lemma TokenIsThere(u: Setup, file: Option<Json>, uuid: string)
    requires GoodDefaults(u.table, u.defaults) && u.env.Obj? && uuid != ""
    ensures var before, after := Settled(u, file), Load(u, file, uuid);
            var asked := "web_auth_enabled" in before.fields && Truthy(before.fields["web_auth_enabled"]);
            var held := "web_token" in before.fields && Truthy(before.fields["web_token"]);
            && (asked ==> "web_token" in after.fields && Truthy(after.fields["web_token"]))
            && (held || !asked ==> after == before)
            && (asked && !held ==> after.fields["web_token"] == Str(uuid))
            && (forall k :: k != "web_token" ==> Get(after, k) == Get(before, k))
  {
    hide Settled;
  }

  // ---------- validation ----------

  predicate IsCount(v: Option<Json>) { v.Some? && v.value.Num? && v.value.n >= 0.0 }

  /** Every checked value is in order: the port, the host, the sections of the table and its plain numbers. */
  predicate InOrder(t: Table, cfg: Json)
    requires cfg.Obj?
  {
    && IsCount(Get(cfg, "web_port")) && 1.0 <= cfg.fields["web_port"].n <= 65535.0
    && "web_host" in cfg.fields && cfg.fields["web_host"].Str?
    && forall i :: 0 <= i < |t| ==> RowInOrder(cfg, t[i].0, t[i].1)
  }

  predicate RowInOrder(cfg: Json, name: string, keys: seq<string>)
    requires cfg.Obj?
  {
    if keys == [] then IsCount(Get(cfg, name))
    else name in cfg.fields && cfg.fields[name].Obj?
         && forall j :: 0 <= j < |keys| ==> IsCount(Get(cfg.fields[name], keys[j]))
  }

  /** What validation leaves of a section: a bad number of the table gives way to the default, nothing else does. */
  lemma SectionFixed(t: Table, d: Json, cfg: Json, i: nat)
    requires GoodDefaults(t, d) && cfg.Obj? && i < |t| && t[i].1 != []
    ensures var (name, keys) := t[i];
            var after := Get(Validated(t, d, cfg), name);
            && after.Some? && after.value.Obj?
            && (name in cfg.fields && cfg.fields[name].Obj? ==>
                  forall f :: Get(after.value, f) == if f in keys && !IsCount(Get(cfg.fields[name], f))
                                                     then Get(d.fields[name], f) else Get(cfg.fields[name], f))
            && (!(name in cfg.fields && cfg.fields[name].Obj?) ==> after == Get(d, name))
  {
    hide Validated, FixSection;
    var (name, keys) := t[i];
    RowAt(t, i);
    assert GoodRow(d, name, keys);
    assert Checked(t, name) && RowOf(t, name) == Some(keys) && name != "web_port" && name != "web_host";
    ValidatedGet(t, d, cfg, name);
    if name in cfg.fields && cfg.fields[name].Obj? {
      var sec := cfg.fields[name];
      forall f
        ensures Get(FixSection(d.fields[name], keys, sec), f)
             == if f in keys && !IsCount(Get(sec, f)) then Get(d.fields[name], f) else Get(sec, f)
      {
        FixSectionGet(d.fields[name], keys, sec, f);
      }
    }
  }

  /** ... and of a plain number, of the port and of the host. */
  lemma ScalarsFixed(t: Table, d: Json, cfg: Json)
    requires GoodDefaults(t, d) && cfg.Obj?
    ensures var after := Validated(t, d, cfg);
            var port, host := Get(cfg, "web_port"), Get(cfg, "web_host");
            && Get(after, "web_port") == (if IsCount(port) && 1.0 <= port.value.n <= 65535.0 then port
                                          else Get(d, "web_port"))
            && Get(after, "web_host") == (if host.Some? && host.value.Str? then host else Get(d, "web_host"))
            && forall i :: 0 <= i < |t| && t[i].1 == [] ==>
                 Get(after, t[i].0) == if IsCount(Get(cfg, t[i].0)) then Get(cfg, t[i].0) else Get(d, t[i].0)
  {
    hide Validated;
    ValidatedGet(t, d, cfg, "web_port");
    ValidatedGet(t, d, cfg, "web_host");
    forall i | 0 <= i < |t| && t[i].1 == []
      ensures Get(Validated(t, d, cfg), t[i].0)
           == if IsCount(Get(cfg, t[i].0)) then Get(cfg, t[i].0) else Get(d, t[i].0)
    {
      RowAt(t, i);
      GoodRowOf(t, d, t[i].0);
      ValidatedGet(t, d, cfg, t[i].0);
    }
  }

  /** A row is in order afterwards, and what stands under its name changes exactly when it was not. */
  lemma RowFixedIff(t: Table, d: Json, cfg: Json, i: nat)
    requires GoodDefaults(t, d) && cfg.Obj? && i < |t|
    ensures var (name, keys) := t[i];
            RowInOrder(Validated(t, d, cfg), name, keys)
            && (RowInOrder(cfg, name, keys) <==> Get(Validated(t, d, cfg), name) == Get(cfg, name))
  {
    hide Validated, RowOf;
    var (name, keys) := t[i];
    var after := Validated(t, d, cfg);
    assert GoodRow(d, name, keys);
    ScalarsFixed(t, d, cfg);
    if keys != [] {
      SectionFixed(t, d, cfg, i);
      if name in cfg.fields && cfg.fields[name].Obj? && RowInOrder(cfg, name, keys) {
        forall f ensures Get(after.fields[name], f) == Get(cfg.fields[name], f) { }
        SameObject(after.fields[name], cfg.fields[name]);
      }
    }
  }

  /** Validation puts every checked value in order, and changes a configuration exactly when one was not. */
  lemma ValidationIff(t: Table, d: Json, cfg: Json)
    requires GoodDefaults(t, d) && cfg.Obj?
    ensures InOrder(t, Validated(t, d, cfg))
    ensures Validated(t, d, cfg) == cfg <==> InOrder(t, cfg)
  {
    hide Validated, RowInOrder, GoodRow, RowOf, Checked;
    var after := Validated(t, d, cfg);
    ScalarsFixed(t, d, cfg);
    forall i | 0 <= i < |t| ensures RowInOrder(after, t[i].0, t[i].1) { RowFixedIff(t, d, cfg, i); }
    if after == cfg {
      forall i | 0 <= i < |t| ensures RowInOrder(cfg, t[i].0, t[i].1) { RowFixedIff(t, d, cfg, i); }
    } else if InOrder(t, cfg) {
      forall k ensures Get(after, k) == Get(cfg, k) {
        ValidatedGet(t, d, cfg, k);
        CheckedName(t, k);
        if i :| 0 <= i < |t| && t[i].0 == k { RowFixedIff(t, d, cfg, i); }
      }
      SameObject(after, cfg);
    }
  }

  lemma CheckedName(t: Table, k: string)
    ensures Checked(t, k) <==> k == "web_port" || k == "web_host" || exists i :: 0 <= i < |t| && t[i].0 == k
  {
  }
}
