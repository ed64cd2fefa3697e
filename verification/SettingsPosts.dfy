/**
 What posting the settings form does to the settings, key by key and value by value, and what the form never
 shows (netpulse/server.py).
 */
module SettingsPosts {
  import opened Wrappers
  import opened Json
  import opened JsonPaths
  import opened Settings
  import ConfigFile

  /** The settings after a post that was saved. */
  function Posted(c: Json, body: Json, uuid: string): (r: Json)
    requires c.Obj? && body.Obj?
    ensures r.Obj?
  {
    Merge(c, PostedUpdates(body, uuid))
  }

  // ---------- which keys a post reaches ----------

  predicate Rotates(body: Json)
    requires body.Obj?
  {
    "_regen_token" in body.fields && Truthy(body.fields["_regen_token"])
  }

  /** The keys of a body that a post takes over. */
  predicate Reaches(body: Json, k: string)
    requires body.Obj?
  {
    && k in body.fields && body.fields[k] != Str("***")
    && k !in {"_regen_token", "web_auth_enabled", "mikrotik", "metrics", "alertmanager"}
    && !(k == "web_users" && DumpHasMask(body.fields[k]))
    && !(k == "web_token" && Rotates(body))
  }

  lemma UpdateAt(body: Json, uuid: string, k: string)
    requires body.Obj? && uuid != "***"
    ensures Get(PostedUpdates(body, uuid), k)
         == if k == "web_token" && Rotates(body) then Some(Str(uuid))
            else if Reaches(body, k) then Some(Discard(body.fields[k]))
            else None
  {
    hide DumpHasMask, Discard;
    var allowed := body.fields - {"_regen_token"} - PROTECTED;
    var rotated := if Rotates(body) then allowed["web_token" := Str(uuid)] else allowed;
    var users := if "web_users" in rotated && DumpHasMask(rotated["web_users"]) then rotated - {"web_users"}
                 else rotated;
    assert PostedUpdates(body, uuid) == Discard(Obj(users));
    DiscardGet(Obj(users), k);
    KeepsKind(Str(uuid));
  }

  /** A new token is set exactly when one is asked for; else the one posted, if it is not masked. */
  lemma TokenRotates(c: Json, body: Json, uuid: string)
    requires c.Obj? && body.Obj? && uuid != "***"
    ensures Rotates(body) ==> Get(Posted(c, body, uuid), "web_token") == Some(Str(uuid))
    ensures !Rotates(body) && ("web_token" !in body.fields || body.fields["web_token"] == Str("***")) ==>
              Get(Posted(c, body, uuid), "web_token") == Get(c, "web_token")
  {
    UpdateAt(body, uuid, "web_token");
    MergeAt(c, PostedUpdates(body, uuid), "web_token");
  }

  /** What a post does not reach stays: what it does not name, masks, user lists with a mask, protected keys. */
  lemma UnreachedStays(c: Json, body: Json, uuid: string, k: string)
    requires c.Obj? && body.Obj? && uuid != "***" && !Reaches(body, k) && !(k == "web_token" && Rotates(body))
    ensures Get(Posted(c, body, uuid), k) == Get(c, k)
  {
    UpdateAt(body, uuid, k);
    MergeAt(c, PostedUpdates(body, uuid), k);
  }

  // ---------- which values it takes ----------

  predicate Fielded(path: seq<Place>) { path != [] && forall p <- path :: p.Field? }

  lemma {:induction false} DiscardTakes(v: Json, path: seq<Place>)
    requires Fielded(path) && At(v, path).Some? && At(v, path).value != Str("***")
    ensures At(Discard(v), path) == Some(Discard(At(v, path).value))
    decreases |path|
  {
    var k := path[0].key;
    var inner := v.fields[k];
    assert path[0] in path;
    if |path| == 1 {
      assert path[1..] == [];
    } else {
      assert inner.Obj? by { assert path[1] in path; }
      DiscardTakes(inner, path[1..]);
    }
  }

  lemma {:induction false} DiscardSilences(v: Json, path: seq<Place>)
    requires Fielded(path) && At(v, path) == Some(Str("***"))
    ensures Silent(Discard(v), path)
    decreases |path|
  {
    var k := path[0].key;
    assert path[0] in path;
    if |path| == 1 {
      assert path[1..] == [];
    } else {
      assert path[1] in path;
      DiscardSilences(v.fields[k], path[1..]);
    }
  }

  /** A value posted under a key that is reached is taken, wherever it stands among dicts, if it is not masked. */
  lemma PostTakes(c: Json, body: Json, uuid: string, path: seq<Place>)
    requires c.Obj? && body.Obj? && uuid != "***" && Fielded(path) && Reaches(body, path[0].key)
    requires At(body, path).Some? && !At(body, path).value.Obj? && At(body, path).value != Str("***")
    ensures At(Posted(c, body, uuid), path) == Some(Discard(At(body, path).value))
    ensures !At(body, path).value.Arr? ==> At(Posted(c, body, uuid), path) == At(body, path)
  {
    hide PostedUpdates, Discard, DumpHasMask;
    UpdateAt(body, uuid, path[0].key);
    DiscardTakes(body, path);
    var updates := PostedUpdates(body, uuid);
    SameUnder(updates, body, path);
    KeepsKind(At(body, path).value);
    MergeTakes(c, updates, path);
  }

  lemma SameUnder(updates: Json, body: Json, path: seq<Place>)
    requires updates.Obj? && body.Obj? && Fielded(path) && path[0].key in body.fields
    requires Get(updates, path[0].key) == Some(Discard(body.fields[path[0].key]))
    requires body.fields[path[0].key] != Str("***")
    ensures At(updates, path) == At(Discard(body), path)
    ensures Silent(updates, path) <==> Silent(Discard(body), path)
  {
    assert path[0] in path;
    DiscardGet(body, path[0].key);
  }

  lemma KeepsKind(v: Json)
    ensures Discard(v).Obj? <==> v.Obj?
    ensures !v.Obj? && !v.Arr? ==> Discard(v) == v
  {
  }

  /** A masked value never takes the place of what is stored. */
  lemma MaskedStays(c: Json, body: Json, uuid: string, path: seq<Place>)
    requires c.Obj? && body.Obj? && uuid != "***" && Fielded(path) && !(path[0].key == "web_token" && Rotates(body))
    requires At(body, path) == Some(Str("***")) && At(c, path).Some? && !At(c, path).value.Obj?
    ensures At(Posted(c, body, uuid), path) == At(c, path)
  {
    hide PostedUpdates, Discard;
    var k := path[0].key;
    assert path[0] in path;
    UpdateAt(body, uuid, k);
    var updates := PostedUpdates(body, uuid);
    if Reaches(body, k) {
      DiscardSilences(body, path);
      SameUnder(updates, body, path);
    }
    MergeKeeps(c, updates, path);
  }

  // ---------- what is never shown ----------

  /** A key is sensitive when one of five words stands in it, in whatever case. */
  lemma SensitiveIff(key: string)
    ensures Sensitive(key)
       <==> exists i, j :: 0 <= i <= j <= |key| && ConfigFile.Lower(key)[i..j]
                                                   in {"token", "password", "secret", "community", "api_key"}
  {
    var low := ConfigFile.Lower(key);
    if Sensitive(key) {
      var w :| 0 <= w < |WORDS| && Contains(low, WORDS[w]);
      var i :| 0 <= i <= |low| && WORDS[w] <= low[i..];
      assert low[i..i + |WORDS[w]|] == WORDS[w];
    }
    if i, j :| 0 <= i <= j <= |key| && low[i..j] in {"token", "password", "secret", "community", "api_key"} {
      assert WORDS[0] == "token" && WORDS[1] == "password" && WORDS[2] == "secret" && WORDS[3] == "community"
             && WORDS[4] == "api_key";
      var w :| 0 <= w < |WORDS| && WORDS[w] == low[i..j];
      assert low[i..j] <= low[i..];
      assert Contains(low, WORDS[w]);
    }
  }

  lemma {:induction false} RedactHides(v: Json, path: seq<Place>, n: nat)
    requires n < |path| && path[n].Field? && Sensitive(path[n].key)
    requires At(Redact(v), path).Some?
    ensures n == |path| - 1 && At(Redact(v), path) == Some(Str("***"))
    decreases |path|
  {
    hide Sensitive;
    match path[0]
    case Field(k) =>
      RedactGet(v, k);
      if n > 0 {
        if Sensitive(k) { MaskIsLeaf(path[1..]); }
        RedactHides(v.fields[k], path[1..], n - 1);
      } else {
        MaskIsLeaf(path[1..]);
      }
    case Index(i) => RedactHides(v.items[i], path[1..], n - 1);
  }

  lemma MaskIsLeaf(path: seq<Place>)
    ensures At(Str("***"), path).Some? <==> path == []
  {
  }

  /** Nothing under a sensitive key is shown but a mask, at any depth, and no url of a webhook. */
  lemma SecretsAreHidden(c: Json, path: seq<Place>, n: nat)
    requires c.Obj? && SettingsGet(c).Some? && n < |path| && path[n].Field? && Sensitive(path[n].key)
    requires path[0] != Field("web_token_masked")
    ensures At(SettingsGet(c).value, path).Some? ==> At(SettingsGet(c).value, path).value == Str("***")
  {
    hide Redact, Sensitive, SettingsGet;
    WebhookIsPlain();
    UrlIsPlain();
    if |path| > 1 && path[0] == Field("webhook") && path[1] == Field("url") {
      UrlShown(c, path);
    } else if path != [Field("webhook")] && At(SettingsGet(c).value, path).Some? {
      GetAt(c, path);
      RedactHides(c, path, n);
    }
  }

  /** Other than the flag and the url of the webhook, settings_get shows what redaction leaves. */
  lemma GetAt(c: Json, path: seq<Place>)
    requires c.Obj? && SettingsGet(c).Some? && path != [] && path[0] != Field("web_token_masked")
    requires !(|path| > 1 && path[0] == Field("webhook") && path[1] == Field("url")) && path != [Field("webhook")]
    ensures At(SettingsGet(c).value, path) == At(Redact(c), path)
  {
    hide Redact;
  }

  /** The url of a webhook is shown as a mask, and nothing below it, or is as falsy as it was. */
  lemma UrlShown(c: Json, path: seq<Place>)
    requires c.Obj? && SettingsGet(c).Some?
    requires |path| > 1 && path[0] == Field("webhook") && path[1] == Field("url")
    ensures At(SettingsGet(c).value, path).Some? ==> |path| == 2
    ensures |path| == 2 && At(c, path).Some? && Truthy(At(c, path).value) ==>
              At(SettingsGet(c).value, path) == Some(Str("***"))
  {
    hide Redact, Sensitive, Truthy, At;
    WebhookIsPlain();
    UrlIsPlain();
    RedactGet(c, "webhook");
    var g := SettingsGet(c).value;
    TwoDown(g, path);
    TwoDown(c, path);
    if "webhook" in c.fields && c.fields["webhook"].Obj? && "url" in c.fields["webhook"].fields {
      var w := c.fields["webhook"];
      RedactGet(w, "url");
      EmptyIsFalsy(w);
      var url := g.fields["webhook"].fields["url"];
      assert url == (if Truthy(w.fields["url"]) then MASK else Redact(w.fields["url"]));
      MaskIsLeaf(path[2..]);
      if !Truthy(url) && At(url, path[2..]).Some? { FalsyIsFlat(url, path[2..]); }
    }
  }

  /** What stands two fields down a tree, or below. */
  lemma TwoDown(v: Json, path: seq<Place>)
    requires |path| > 1 && path[0] == Field("webhook") && path[1] == Field("url")
    ensures At(v, path)
         == if v.Obj? && "webhook" in v.fields && v.fields["webhook"].Obj? && "url" in v.fields["webhook"].fields
            then At(v.fields["webhook"].fields["url"], path[2..]) else None
    ensures |path| == 2 && At(v, path).Some? ==> At(v, path).value == v.fields["webhook"].fields["url"]
  {
    assert path[1..][1..] == path[2..];
  }

  lemma EmptyIsFalsy(v: Json)
    requires v.Obj? && v.fields != map[]
    ensures Truthy(v)
  {
  }

  lemma FalsyIsFlat(v: Json, path: seq<Place>)
    requires !Truthy(v) && At(v, path).Some?
    ensures path == []
  {
  }

  // ---------- a mask in a dump ----------

  /** A text at the path, or the key it ends with, holds a mask. */
  ghost predicate ShowsMask(v: Json, path: seq<Place>)
  {
    At(v, path).Some? && ((At(v, path).value.Str? && Contains(At(v, path).value.s, "***"))
                          || (path != [] && path[|path| - 1].Field? && Contains(path[|path| - 1].key, "***")))
  }

  /** The dump of a value holds a mask exactly when some text or some key of it does, at any depth. */
  lemma {:induction false} DumpHasMaskIff(v: Json)
    ensures DumpHasMask(v) <==> exists path :: ShowsMask(v, path)
    decreases v
  {
    hide Contains;
    match v
    case Obj(m) =>
      forall k | k in m ensures DumpHasMask(m[k]) <==> exists path :: ShowsMask(m[k], path) { DumpHasMaskIff(m[k]); }
      if k :| k in m && Contains(k, "***") { KeyShows(v, k); }
      if k :| k in m && DumpHasMask(m[k]) {
        var path :| ShowsMask(m[k], path);
        ShownBelow(v, Field(k), path);
      }
      if path :| ShowsMask(v, path) { MaskBelow(v, path); }
    case Arr(a) =>
      forall i | 0 <= i < |a| ensures DumpHasMask(a[i]) <==> exists path :: ShowsMask(a[i], path) {
        DumpHasMaskIff(a[i]);
      }
      if i :| 0 <= i < |a| && DumpHasMask(a[i]) {
        var path :| ShowsMask(a[i], path);
        ShownBelow(v, Index(i), path);
      }
      if path :| ShowsMask(v, path) { MaskBelow(v, path); }
    case Str(_) =>
      if DumpHasMask(v) { assert ShowsMask(v, []); }
    case _ =>
  }

  lemma KeyShows(v: Json, k: string)
    requires v.Obj? && k in v.fields && Contains(k, "***")
    ensures ShowsMask(v, [Field(k)])
  {
    hide Contains;
    var path := [Field(k)];
    assert path[1..] == [] && At(v, path) == Some(v.fields[k]);
  }

  lemma ShownBelow(v: Json, p: Place, path: seq<Place>)
    requires At(v, [p]).Some? && ShowsMask(At(v, [p]).value, path)
    ensures ShowsMask(v, [p] + path)
  {
    assert ([p] + path)[1..] == path && [p][1..] == [];
    assert path != [] ==> ([p] + path)[|path|] == path[|path| - 1];
  }

  lemma MaskBelow(v: Json, path: seq<Place>)
    requires ShowsMask(v, path) && (v.Obj? || v.Arr?)
    ensures path != []
    ensures match path[0]
            case Field(k) => v.Obj? && k in v.fields && (Contains(k, "***") || ShowsMask(v.fields[k], path[1..]))
            case Index(i) => v.Arr? && i < |v.items| && ShowsMask(v.items[i], path[1..])
  {
    hide Contains;
    assert |path| > 1 ==> path[1..][|path| - 2] == path[|path| - 1];
  }
}
