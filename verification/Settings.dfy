/** The settings form: redaction on the way out (netpulse/server.py), merge on the way in (netpulse/services.py). */
module Settings {
  import opened Wrappers
  import opened Json
  import ConfigFile

  const MASK := Str("***")

  predicate Contains(s: string, word: string)
  {
    exists i {:trigger s[i..]} :: 0 <= i <= |s| && word <= s[i..]
  }

  const WORDS := ["token", "password", "secret", "community", "api_key"]

  predicate Sensitive(key: string)
  {
    exists i :: 0 <= i < |WORDS| && Contains(ConfigFile.Lower(key), WORDS[i])
  }

  // ---------- redact_audit and discard_masked ----------

  function Redact(v: Json): (r: Json)
    ensures v.Obj? <==> r.Obj?
    ensures v.Obj? ==> r.fields.Keys == v.fields.Keys
    ensures Truthy(r) <==> Truthy(v)
    decreases v
  {
    match v
    case Obj(m) =>
      var n := map k | k in m :: if Sensitive(k) then MASK else Redact(m[k]);
      assert n.Keys == m.Keys;
      assert n == map[] <==> n.Keys == {};
      Obj(n)
    case Arr(a) => Arr(seq(|a|, i requires 0 <= i < |a| => Redact(a[i])))
    case _ => v
  }

  function Discard(v: Json): (r: Json)
    ensures v.Obj? <==> r.Obj?
    decreases v
  {
    match v
    case Obj(m) => Obj(map k | k in m && m[k] != MASK :: Discard(m[k]))
    case Arr(a) => Arr(seq(|a|, i requires 0 <= i < |a| => Discard(a[i])))
    case _ => v
  }

  /** Whether "***" occurs in json.dumps(v). */
  predicate DumpHasMask(v: Json)
    decreases v
  {
    match v
    case Obj(m) => exists k :: k in m && (Contains(k, "***") || DumpHasMask(m[k]))
    case Arr(a) => exists i :: 0 <= i < |a| && DumpHasMask(a[i])
    case Str(s) => Contains(s, "***")
    case _ => false
  }

  // ---------- which trees survive ----------

  /** No dict inside v has a sensitive key or a masked value. */
  predicate Clean(v: Json)
    decreases v
  {
    match v
    case Obj(m) => forall k :: k in m ==> !Sensitive(k) && m[k] != MASK && Clean(m[k])
    case Arr(a) => forall i :: 0 <= i < |a| ==> Clean(a[i])
    case _ => true
  }

  /** Every list reached through non-sensitive keys of nested dicts is clean. */
  predicate Restorable(v: Json)
    decreases v
  {
    match v
    case Obj(m) => forall k :: k in m && !Sensitive(k) ==> Restorable(m[k])
    case Arr(_) => Clean(v)
    case _ => true
  }

  lemma {:induction false} UnchangedIffClean(v: Json)
    ensures Discard(Redact(v)) == v <==> Clean(v)
    decreases v
  {
    match v
    case Obj(m) =>
      var r := Discard(Redact(v));
      forall k | k in m ensures Discard(Redact(m[k])) == m[k] <==> Clean(m[k]) {
        UnchangedIffClean(m[k]);
      }
      if Clean(v) {
        forall k | k in m ensures k in r.fields && r.fields[k] == m[k] { RedactKeeps(m[k]); }
        assert r.fields == m;
      } else {
        var k :| k in m && !(!Sensitive(k) && m[k] != MASK && Clean(m[k]));
        assert k in r.fields ==> !Sensitive(k) && r.fields[k] == Discard(Redact(m[k]));
        RedactKeeps(m[k]);
      }
    case Arr(a) =>
      var r := Discard(Redact(v));
      forall i | 0 <= i < |a| ensures r.items[i] == a[i] <==> Clean(a[i]) {
        UnchangedIffClean(a[i]);
      }
      assert r.items == a <==> forall i :: 0 <= i < |a| ==> r.items[i] == a[i];
    case _ =>
  }

  /** Redaction makes a mask only of a mask. */
  lemma RedactKeeps(v: Json)
    ensures Redact(v) == MASK <==> v == MASK
  {
  }

  /** Merging one key's redacted, discarded value back over the value. */
  lemma {:induction false} PutBackIff(v: Json)
    ensures Put(Some(v), Discard(Redact(v))) == v <==> Restorable(v)
    decreases v
  {
    match v
    case Obj(m) => MergeBackIff(v);
    case Arr(_) => UnchangedIffClean(v);
    case _ =>
  }

  /** merge(c, discard(redact(c))) == c exactly when c is restorable. */
  lemma {:induction false} MergeBackIff(c: Json)
    requires c.Obj?
    ensures Merge(c, Discard(Redact(c))) == c <==> Restorable(c)
    decreases c, 0
  {
    var back := Merge(c, Discard(Redact(c)));
    forall k | k in c.fields
      ensures Get(back, k) == Get(c, k) <==> (Sensitive(k) || Restorable(c.fields[k]))
    {
      MergeAt(c, Discard(Redact(c)), k);
      RedactKeeps(c.fields[k]);
      if !Sensitive(k) && c.fields[k] != MASK { PutBackIff(c.fields[k]); }
    }
    assert back.fields.Keys == c.fields.Keys;
    if Restorable(c) {
      forall k ensures Get(back, k) == Get(c, k) { }
      SameObject(back, c);
    } else {
      var k :| k in c.fields && !Sensitive(k) && !Restorable(c.fields[k]);
      assert Get(back, k) != Get(c, k);
    }
  }

  // ---------- settings_get and settings_post ----------

  const PROTECTED: set<string> := {"web_auth_enabled", "mikrotik", "metrics", "alertmanager"}

  function TruthyAt(c: Json, k: string): bool
    requires c.Obj?
  {
    k in c.fields && Truthy(c.fields[k])
  }

  /** settings_get; None where `.get('url')` is asked of something that is no dict. */
  function SettingsGet(c: Json): (r: Option<Json>)
    requires c.Obj?
    ensures r.Some? ==> r.value.Obj?
  {
    var shown := Redact(c);
    var note := "web_token_masked";
    var flag := if TruthyAt(c, "web_token") then MASK else Str("");
    if !TruthyAt(shown, "webhook") then Some(Obj(shown.fields[note := flag]))
    else if !shown.fields["webhook"].Obj? then None
    else if !TruthyAt(shown.fields["webhook"], "url") then Some(Obj(shown.fields[note := flag]))
    else Some(Obj(shown.fields["webhook" := Obj(shown.fields["webhook"].fields["url" := MASK])][note := flag]))
  }

  /** The body that reaches apply_settings. */
  function PostedUpdates(body: Json, uuid: string): (r: Json)
    requires body.Obj?
    ensures r.Obj?
  {
    var allowed := body.fields - {"_regen_token"} - PROTECTED;
    var rotated := if TruthyAt(body, "_regen_token") then allowed["web_token" := Str(uuid)] else allowed;
    var users := if "web_users" in rotated && DumpHasMask(rotated["web_users"]) then rotated - {"web_users"}
                 else rotated;
    Discard(Obj(users))
  }

  class MonitorService {
    var cfg: Json

    constructor (c: Json)
      ensures cfg == c
    {
      cfg := c;
    }

    /** Copy, merge, save, then commit; a failed save leaves the settings as they were. */
    method ApplySettings(updates: Json, saves: bool) returns (ok: bool)
      requires cfg.Obj? && updates.Obj?
      modifies this
      ensures ok == saves && cfg == if saves then Merge(old(cfg), updates) else old(cfg)
    {
      var candidate := DeepMerge(cfg, updates);
      if !saves { return false; }
      assert Obj(cfg.fields + candidate.fields) == candidate by {
        assert cfg.fields + candidate.fields == candidate.fields;
      }
      cfg := Obj(cfg.fields + candidate.fields);
      return true;
    }

    method SettingsPost(body: Json, uuid: string, saves: bool) returns (ok: bool)
      requires cfg.Obj? && body.Obj?
      modifies this
      ensures ok == saves
      ensures cfg == if saves then Merge(old(cfg), PostedUpdates(body, uuid)) else old(cfg)
    {
      var fields := body.fields;
      var regen := if "_regen_token" in fields then Truthy(fields["_regen_token"]) else false;
      fields := fields - {"_regen_token"};
      fields := fields - {"web_auth_enabled", "mikrotik", "metrics", "alertmanager"};
      if regen { fields := fields["web_token" := Str(uuid)]; }
      if "web_users" in fields && DumpHasMask(fields["web_users"]) { fields := fields - {"web_users"}; }
      assert Discard(Obj(fields)) == PostedUpdates(body, uuid);
      ok := ApplySettings(Discard(Obj(fields)), saves);
    }
  }

  // ---------- posting back what was shown ----------

  /** A user list without a mask in its dump was not redacted and loses nothing. */
  lemma {:induction false} UnmaskedIsWhole(v: Json)
    requires !DumpHasMask(Redact(v))
    ensures Redact(v) == v && Discard(v) == v
    decreases v
  {
    match v
    case Obj(m) =>
      var r := Redact(v);
      forall k | k in m ensures !Sensitive(k) && r.fields[k] == m[k] && m[k] != MASK && Discard(m[k]) == m[k] {
        assert !DumpHasMask(r.fields[k]);
        MaskIsSeen();
        assert !Sensitive(k);
        UnmaskedIsWhole(m[k]);
      }
      assert r.fields == m;
      assert Discard(v).fields == m;
    case Arr(a) =>
      var r := Redact(v);
      forall i | 0 <= i < |a| ensures r.items[i] == a[i] && Discard(a[i]) == a[i] {
        assert !DumpHasMask(r.items[i]);
        UnmaskedIsWhole(a[i]);
      }
      assert r.items == a && Discard(v).items == a;
    case _ =>
  }

  lemma MaskIsSeen()
    ensures DumpHasMask(MASK)
  {
    var s := "***";
    assert s[0..] == s && s <= s[0..];
  }

  /** The keys of c whose value the round trip must carry. */
  predicate Carried(k: string)
  {
    !Sensitive(k) && k !in PROTECTED && k != "web_users"
  }

  /** What must be restorable under a carried key: the webhook without its url, the rest as it is. */
  function Body(c: Json, k: string): Json
    requires c.Obj? && k in c.fields
  {
    var v := c.fields[k];
    if k == "webhook" && v.Obj? then Obj(v.fields - {"url"}) else v
  }

  predicate Survives(c: Json)
    requires c.Obj?
  {
    forall k :: k in c.fields && Carried(k) ==> Restorable(Body(c, k))
  }

  /** The settings after the round trip: as before, with the flag added when there is no token. */
  function Expected(c: Json): Json
    requires c.Obj?
  {
    if TruthyAt(c, "web_token") then c else Obj(c.fields["web_token_masked" := Str("")])
  }

  lemma KeyFacts()
    ensures Sensitive("web_token") && Sensitive("web_token_masked") && Sensitive("_regen_token")
  {
    var a, b, d := ConfigFile.Lower("web_token"), ConfigFile.Lower("web_token_masked"),
                   ConfigFile.Lower("_regen_token");
    assert a == "web_token" && b == "web_token_masked" && d == "_regen_token";
    assert WORDS[0] <= a[4..] && WORDS[0] <= b[4..] && WORDS[0] <= d[7..];
    assert Contains(a, WORDS[0]) && Contains(b, WORDS[0]) && Contains(d, WORDS[0]);
  }

  lemma MergeWithoutAt(w: Json, rest: Json, u: string, e: Json, k: string)
    requires w.Obj? && e.Obj? && u !in e.fields && rest == Obj(w.fields - {u})
    ensures Get(Merge(w, e), k) == if k == u then Get(w, k) else Get(Merge(rest, e), k)
    ensures Get(rest, k) == if k == u then None else Get(w, k)
    ensures Get(Merge(rest, e), u) == None
  {
    hide Merge, Put;
    MergeAt(w, e, k);
    MergeAt(rest, e, k);
    MergeAt(rest, e, u);
  }

  /** A key that is not merged in does not matter to whether a merge changes anything. */
  lemma MergeWithout(w: Json, rest: Json, u: string, e: Json)
    requires w.Obj? && e.Obj? && u !in e.fields && rest == Obj(w.fields - {u})
    ensures Merge(w, e) == w <==> Merge(rest, e) == rest
  {
    hide Merge, Get;
    if Merge(rest, e) == rest {
      forall k ensures Get(Merge(w, e), k) == Get(w, k) { MergeWithoutAt(w, rest, u, e, k); }
      SameObject(Merge(w, e), w);
    }
    if Merge(w, e) == w {
      forall k ensures Get(Merge(rest, e), k) == Get(rest, k) { MergeWithoutAt(w, rest, u, e, k); }
      SameObject(Merge(rest, e), rest);
    }
  }

  /** Masking a key before discarding is leaving it out before redacting. */
  lemma MaskIsOmission(w: Json, u: string)
    requires w.Obj? && u in w.fields
    ensures Discard(Obj(Redact(w).fields[u := MASK])) == Discard(Redact(Obj(w.fields - {u})))
  {
    hide Redact, Discard, Sensitive;
    var rest := Obj(w.fields - {u});
    var masked := Obj(Redact(w).fields[u := MASK]);
    forall k ensures Get(Discard(masked), k) == Get(Discard(Redact(rest)), k) {
      DiscardGet(masked, k);
      DiscardGet(Redact(rest), k);
      RedactGet(w, k);
      RedactGet(rest, k);
    }
    SameObject(Discard(masked), Discard(Redact(rest)));
  }

  lemma DiscardGet(v: Json, k: string)
    requires v.Obj?
    ensures Get(Discard(v), k) == if k in v.fields && v.fields[k] != MASK then Some(Discard(v.fields[k])) else None
  {
  }

  lemma RedactGet(v: Json, k: string)
    requires v.Obj?
    ensures Get(Redact(v), k)
         == if k !in v.fields then None else Some(if Sensitive(k) then MASK else Redact(v.fields[k]))
  {
  }

  /** A webhook with its url masked comes back exactly when the rest of it does. */
  lemma WebhookIff(w: Json)
    requires w.Obj? && "url" in w.fields
    ensures Put(Some(w), Discard(Obj(Redact(w).fields["url" := MASK]))) == w <==> Restorable(Obj(w.fields - {"url"}))
  {
    hide Redact, Discard, Restorable, Merge;
    var rest := Obj(w.fields - {"url"});
    MaskIsOmission(w, "url");
    DiscardKeys(Redact(rest));
    MergeWithout(w, rest, "url", Discard(Redact(rest)));
    MergeBackIff(rest);
  }

  lemma DiscardKeys(v: Json)
    requires v.Obj?
    ensures Discard(v).fields.Keys <= v.fields.Keys
  {
  }

  lemma UrlIsPlain()
    ensures !Sensitive("url")
  {
    assert |ConfigFile.Lower("url")| == 3 && forall i :: 0 <= i < |WORDS| ==> |WORDS[i]| > 3;
  }

  /** A dict whose url is falsy is as restorable with it as without it. */
  lemma FalsyUrl(w: Json)
    requires w.Obj? && !TruthyAt(w, "url")
    ensures Restorable(w) <==> Restorable(Obj(w.fields - {"url"}))
  {
    var rest := Obj(w.fields - {"url"});
    forall k | k in w.fields && k != "url" ensures rest.fields[k] == w.fields[k] { }
    if "url" in w.fields { assert Restorable(w.fields["url"]); }
  }

  /** What settings_get shows of a key that is neither sensitive nor the added flag. */
  function Shown(c: Json, k: string): Json
    requires c.Obj? && k in c.fields
  {
    var v := c.fields[k];
    if k == "webhook" && v.Obj? && TruthyAt(v, "url") then Obj(Redact(v).fields["url" := MASK]) else Redact(v)
  }

  lemma GetShows(c: Json, k: string)
    requires c.Obj? && SettingsGet(c).Some?
    ensures var g := SettingsGet(c).value;
            g.fields.Keys == c.fields.Keys + {"web_token_masked"}
            && g.fields["web_token_masked"] == (if TruthyAt(c, "web_token") then MASK else Str(""))
            && (k in c.fields && k != "web_token_masked" && Sensitive(k) && k != "webhook" ==> g.fields[k] == MASK)
            && (k in c.fields && k != "web_token_masked" && !Sensitive(k) ==> g.fields[k] == Shown(c, k))
  {
    hide Redact, Sensitive;
    UrlIsPlain();
    RedactGet(c, k);
    RedactGet(c, "webhook");
    if "webhook" in c.fields && c.fields["webhook"].Obj? {
      RedactGet(c.fields["webhook"], "url");
    }
  }

  lemma WebhookIsPlain()
    ensures !Sensitive("webhook")
  {
    var w := ConfigFile.Lower("webhook");
    assert w == "webhook";
    forall i | 0 <= i <= |w| ensures !(WORDS[0] <= w[i..]) && !(WORDS[2] <= w[i..]) && !(WORDS[4] <= w[i..]) {
      assert i < |w| ==> w[i..][0] == w[i];
    }
    assert |WORDS[1]| > 7 && |WORDS[3]| > 7;
  }

  /** The updates a shown tree, posted back, comes to. */
  lemma PostedBack(c: Json, g: Json, uuid: string, k: string)
    requires c.Obj? && SettingsGet(c) == Some(g) && "_regen_token" !in c.fields
    ensures var updates := PostedUpdates(g, uuid);
            var kept := k in g.fields && k !in PROTECTED && g.fields[k] != MASK
                        && !(k == "web_users" && DumpHasMask(g.fields[k]));
            Get(updates, k) == if kept then Some(Discard(g.fields[k])) else None
  {
    GetShows(c, k);
  }

  /** Whether posting back restores a carried key. */
  lemma CarriedIff(c: Json, g: Json, uuid: string, k: string)
    requires c.Obj? && SettingsGet(c) == Some(g) && "_regen_token" !in c.fields
    requires k in c.fields && Carried(k)
    ensures Get(Merge(c, PostedUpdates(g, uuid)), k) == Get(c, k) <==> Restorable(Body(c, k))
  {
    hide Redact, Discard, Restorable, Merge, PostedUpdates, SettingsGet, Sensitive, DumpHasMask;
    KeyFacts();
    MergeAt(c, PostedUpdates(g, uuid), k);
    GetShows(c, k);
    PostedBack(c, g, uuid, k);
    var v := c.fields[k];
    if k == "webhook" && v.Obj? && TruthyAt(v, "url") {
      WebhookIff(v);
    } else {
      if k == "webhook" && v.Obj? { FalsyUrl(v); }
      RedactKeeps(v);
      MaskRestorable();
      PutBackIff(v);
    }
  }

  lemma MaskRestorable()
    ensures Restorable(MASK)
  {
  }

  /** Keys that are not carried keep their value whatever it is. */
  lemma OthersKept(c: Json, g: Json, uuid: string, k: string)
    requires c.Obj? && SettingsGet(c) == Some(g) && "_regen_token" !in c.fields && !Carried(k)
    ensures Get(Merge(c, PostedUpdates(g, uuid)), k) == Get(Expected(c), k)
  {
    hide Redact, Discard, Merge, PostedUpdates, SettingsGet, Sensitive, DumpHasMask;
    KeyFacts();
    WebhookIsPlain();
    MergeAt(c, PostedUpdates(g, uuid), k);
    GetShows(c, k);
    PostedBack(c, g, uuid, k);
    if k == "web_token_masked" {
      FlagKept();
    } else if k in c.fields && k == "web_users" && !Sensitive(k) {
      var v := c.fields[k];
      if !DumpHasMask(Redact(v)) {
        UnmaskedIsWhole(v);
        if v.Obj? { CoversSelf(v); CoveredMerge(v, v); }
      }
    }
  }

  lemma FlagKept()
    ensures Discard(Str("")) == Str("") && "web_token_masked" !in PROTECTED && "web_token_masked" != "web_users"
  {
  }

  /**
   Posting back what settings_get shows leaves every setting as it was -- and adds the flag when
   there is no token -- exactly when every list under a carried key is clean.  web_users is exempt.
   */
  lemma PostBackIff(c: Json, g: Json, uuid: string)
    requires c.Obj? && SettingsGet(c) == Some(g) && "_regen_token" !in c.fields
    ensures Merge(c, PostedUpdates(g, uuid)) == Expected(c) <==> Survives(c)
  {
    hide Redact, Discard, Restorable, Merge, PostedUpdates, SettingsGet, Sensitive, DumpHasMask;
    var after := Merge(c, PostedUpdates(g, uuid));
    KeyFacts();
    if Survives(c) {
      forall k ensures Get(after, k) == Get(Expected(c), k) {
        if !Carried(k) {
          OthersKept(c, g, uuid, k);
        } else if k in c.fields {
          CarriedIff(c, g, uuid, k);
        } else {
          MergeAt(c, PostedUpdates(g, uuid), k);
          GetShows(c, k);
          PostedBack(c, g, uuid, k);
        }
      }
      SameObject(after, Expected(c));
    } else {
      var k :| k in c.fields && Carried(k) && !Restorable(Body(c, k));
      CarriedIff(c, g, uuid, k);
      assert Get(Expected(c), k) == Get(c, k);
    }
  }

  /** A list of administrators posted back redacted loses its tokens. */
  lemma AdminsLoseTokens(c: Json, g: Json, uuid: string, token: string)
    requires c.Obj? && SettingsGet(c) == Some(g) && "_regen_token" !in c.fields
    requires "web_admins" in c.fields
             && c.fields["web_admins"] == Arr([Obj(map["name" := Str("root"), "token" := Str(token)])])
    ensures !Survives(c) && Merge(c, PostedUpdates(g, uuid)) != Expected(c)
  {
    hide *;
    AdminsKey();
    AdminsNotRestorable(token);
    AdminsAreCarried(c);
    PostBackIff(c, g, uuid);
  }

  lemma AdminsNotRestorable(token: string)
    ensures !Restorable(Arr([Obj(map["name" := Str("root"), "token" := Str(token)])]))
  {
    TokenKey();
    hide Sensitive;
    var v := Arr([Obj(map["name" := Str("root"), "token" := Str(token)])]);
    assert "token" in v.items[0].fields;
    assert !Clean(v.items[0]);
  }

  lemma AdminsAreCarried(c: Json)
    requires c.Obj? && "web_admins" in c.fields && !Sensitive("web_admins") && !Restorable(c.fields["web_admins"])
    ensures !Survives(c)
  {
    hide Sensitive, Restorable;
    assert Carried("web_admins") && Body(c, "web_admins") == c.fields["web_admins"];
  }

  lemma TokenKey()
    ensures Sensitive("token")
  {
    var a := ConfigFile.Lower("token");
    assert a == "token" && a[0..] == a && WORDS[0] <= a[0..];
  }

  lemma AdminsKey()
    ensures !Sensitive("web_admins")
  {
    var w := ConfigFile.Lower("web_admins");
    assert w == "web_admins";
    forall i, j | 0 <= i <= |w| && 0 <= j < |WORDS| ensures !(WORDS[j] <= w[i..]) {
      assert i < |w| ==> w[i..][0] == w[i];
      assert i + 1 < |w| ==> w[i..][1] == w[i + 1];
    }
  }
}
