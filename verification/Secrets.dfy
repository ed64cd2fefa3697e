/** core/secrets.py: secret values of a configuration tree encrypted and decrypted in place. */
module Secrets {
  import opened Wrappers
  import opened Json
  import opened JsonPaths

  const PREFIX := "dpapi:"

  predicate IsEncrypted(s: string) { PREFIX <= s }

  predicate IsSecretKey(key: string) { key == "web_token" || key == "token" }

  /**
   DPAPI.  Either direction may fail.  A ciphertext may differ from call to call even for equal
   plaintexts, so protecting also depends on the place of the value, each place being visited once a save.
   */
  datatype Dpapi = Dpapi(protect: (seq<Place>, string) -> Option<string>, unprotect: string -> Option<string>)

  /** What was protected can be unprotected, to the same text. */
  ghost predicate Faithful(d: Dpapi)
  {
    forall place: seq<Place>, s: string {:trigger d.protect(place, s)} ::
      d.protect(place, s).Some? ==> d.unprotect(d.protect(place, s).value) == Some(s)
  }

  function EncryptIfSecret(d: Dpapi, place: seq<Place>, key: string, node: Json): Json
  {
    if IsSecretKey(key) && node.Str? && node.s != "" && !IsEncrypted(node.s) then
      match d.protect(place, node.s)
      case Some(c) => Str(PREFIX + c)
      case None => node
    else node
  }

  /** encrypt_config(node, key); the outermost call has no key. */
  function Encrypt(d: Dpapi, place: seq<Place>, key: string, node: Json): (r: Json)
    ensures node.Obj? <==> r.Obj?
    decreases node
  {
    match node
    case Obj(m) => Obj(map k | k in m :: Encrypt(d, place + [Field(k)], k, m[k]))
    case Arr(a) => Arr(seq(|a|, i requires 0 <= i < |a| => Encrypt(d, place + [Index(i)], key, a[i])))
    case _ => EncryptIfSecret(d, place, key, node)
  }

  /** decrypt_value(stored), as far as the text after the prefix. */
  function DecryptLeaf(d: Dpapi, s: string): string
  {
    if IsEncrypted(s) then
      match d.unprotect(s[|PREFIX|..])
      case Some(p) => p
      case None => s
    else s
  }

  function Decrypt(d: Dpapi, node: Json): (r: Json)
    ensures node.Obj? <==> r.Obj?
    decreases node
  {
    match node
    case Obj(m) => Obj(map k | k in m :: Decrypt(d, m[k]))
    case Arr(a) => Arr(seq(|a|, i requires 0 <= i < |a| => Decrypt(d, a[i])))
    case Str(s) => Str(DecryptLeaf(d, s))
    case _ => node
  }

  /** Every text that already looks encrypted is one decryption leaves alone. */
  predicate Stable(d: Dpapi, node: Json)
    decreases node
  {
    match node
    case Obj(m) => forall k :: k in m ==> Stable(d, m[k])
    case Arr(a) => forall i :: 0 <= i < |a| ==> Stable(d, a[i])
    case Str(s) => DecryptLeaf(d, s) == s
    case _ => true
  }

  lemma LeafRoundTrip(d: Dpapi, place: seq<Place>, key: string, s: string)
    requires Faithful(d)
    ensures Decrypt(d, EncryptIfSecret(d, place, key, Str(s))) == Str(s) <==> DecryptLeaf(d, s) == s
  {
    var e := EncryptIfSecret(d, place, key, Str(s));
    if e != Str(s) {
      var c := d.protect(place, s).value;
      assert e.s[|PREFIX|..] == c;
    }
  }

  /**
   Decrypting what was encrypted gives the tree back, whether or not encryption worked, exactly
   when no text of the tree already looks encrypted and can be decrypted to something else.
   */
  lemma {:induction false} DecryptEncryptIff(d: Dpapi, place: seq<Place>, key: string, node: Json)
    requires Faithful(d)
    ensures Decrypt(d, Encrypt(d, place, key, node)) == node <==> Stable(d, node)
    decreases node
  {
    match node
    case Obj(m) =>
      forall k | k in m
        ensures Decrypt(d, Encrypt(d, place + [Field(k)], k, m[k])) == m[k] <==> Stable(d, m[k])
      {
        DecryptEncryptIff(d, place + [Field(k)], k, m[k]);
      }
      var r := Decrypt(d, Encrypt(d, place, key, node));
      assert r.fields.Keys == m.Keys;
      assert r.fields == m <==> forall k :: k in m ==> r.fields[k] == m[k];
    case Arr(a) =>
      forall i | 0 <= i < |a|
        ensures Decrypt(d, Encrypt(d, place + [Index(i)], key, a[i])) == a[i] <==> Stable(d, a[i])
      {
        DecryptEncryptIff(d, place + [Index(i)], key, a[i]);
      }
      var r := Decrypt(d, Encrypt(d, place, key, node));
      assert |r.items| == |a|;
      assert r.items == a <==> forall i :: 0 <= i < |a| ==> r.items[i] == a[i];
    case Str(s) => LeafRoundTrip(d, place, key, s);
    case _ =>
  }

  /** The same tree but for its texts. */
  predicate Retexted(a: Json, b: Json)
    decreases a
  {
    match a
    case Obj(m) => b.Obj? && b.fields.Keys == m.Keys && forall k :: k in m ==> Retexted(m[k], b.fields[k])
    case Arr(s) => b.Arr? && |b.items| == |s| && forall i :: 0 <= i < |s| ==> Retexted(s[i], b.items[i])
    case Str(_) => b.Str?
    case _ => a == b
  }

  /** Encryption and decryption touch nothing but texts. */
  lemma {:induction false} RoundTripRetexts(d: Dpapi, place: seq<Place>, key: string, node: Json)
    ensures Retexted(node, Decrypt(d, Encrypt(d, place, key, node)))
    decreases node
  {
    match node
    case Obj(m) =>
      forall k | k in m ensures Retexted(m[k], Decrypt(d, Encrypt(d, place + [Field(k)], k, m[k]))) {
        RoundTripRetexts(d, place + [Field(k)], k, m[k]);
      }
    case Arr(a) =>
      forall i | 0 <= i < |a| ensures Retexted(a[i], Decrypt(d, Encrypt(d, place + [Index(i)], key, a[i]))) {
        RoundTripRetexts(d, place + [Index(i)], key, a[i]);
      }
    case _ =>
  }

  /** Encryption keeps the shape the merge looks at. */
  lemma {:induction false} EncryptCovers(d: Dpapi, place: seq<Place>, key: string, x: Json, y: Json)
    requires x.Obj? && y.Obj? && Covers(x, y)
    ensures Covers(x, Encrypt(d, place, key, y))
    decreases x
  {
    var e := Encrypt(d, place, key, y);
    forall k | k in x.fields && x.fields[k].Obj? && e.fields[k].Obj? ensures Covers(x.fields[k], e.fields[k]) {
      EncryptCovers(d, place + [Field(k)], k, x.fields[k], y.fields[k]);
    }
  }

  lemma {:induction false} DecryptCovers(d: Dpapi, x: Json, y: Json)
    requires x.Obj? && y.Obj? && Covers(x, y)
    ensures Covers(x, Decrypt(d, y))
    decreases x
  {
    var e := Decrypt(d, y);
    forall k | k in x.fields && x.fields[k].Obj? && e.fields[k].Obj? ensures Covers(x.fields[k], e.fields[k]) {
      DecryptCovers(d, x.fields[k], y.fields[k]);
    }
  }

  /** Decryption distributes over the merge. */
  lemma {:induction false} DecryptMerge(d: Dpapi, a: Json, b: Json)
    requires a.Obj? && b.Obj?
    ensures Decrypt(d, Merge(a, b)) == Merge(Decrypt(d, a), Decrypt(d, b))
    decreases b
  {
    forall k ensures Get(Decrypt(d, Merge(a, b)), k) == Get(Merge(Decrypt(d, a), Decrypt(d, b)), k) {
      MergeAt(a, b, k);
      MergeAt(Decrypt(d, a), Decrypt(d, b), k);
      if k in a.fields && k in b.fields && a.fields[k].Obj? && b.fields[k].Obj? {
        DecryptMerge(d, a.fields[k], b.fields[k]);
      }
    }
    SameObject(Decrypt(d, Merge(a, b)), Merge(Decrypt(d, a), Decrypt(d, b)));
  }

  // ---------- which values are encrypted ----------

  /** The key a value stands under: the last one on its path, through any lists. */
  function KeyOver(path: seq<Place>, key: string): string
  {
    if path == [] then key
    else
      match path[|path| - 1]
      case Field(k) => k
      case Index(_) => KeyOver(path[..|path| - 1], key)
  }

  lemma {:induction false} KeyOverTail(path: seq<Place>, key: string)
    requires path != []
    ensures KeyOver(path, key) == KeyOver(path[1..], if path[0].Field? then path[0].key else key)
  {
    var n := |path| - 1;
    if n > 0 && path[n].Index? {
      KeyOverTail(path[..n], key);
      assert path[..n][1..] == path[1..][..n - 1];
    }
  }

  /** What is stored of a text: itself, or the prefix and what protecting it gave. */
  predicate StoredText(d: Dpapi, place: seq<Place>, key: string, s: string, stored: string)
  {
    if (key == "web_token" || key == "token") && s != "" && !("dpapi:" <= s) && d.protect(place, s).Some?
    then stored == "dpapi:" + d.protect(place, s).value
    else stored == s
  }

  /** A value that is no dict and no list, before and after encryption. */
  predicate StoredLeaf(d: Dpapi, place: seq<Place>, key: string, before: Json, after: Json)
  {
    if before.Str? then after.Str? && StoredText(d, place, key, before.s, after.s) else after == before
  }

  predicate IsLeaf(v: Json) { !v.Obj? && !v.Arr? }

  lemma {:induction false} EncryptAt(d: Dpapi, place: seq<Place>, key: string, node: Json, path: seq<Place>)
    ensures var e := At(Encrypt(d, place, key, node), path);
            && (e.Some? <==> At(node, path).Some?)
            && (e.Some? ==> (IsLeaf(e.value) <==> IsLeaf(At(node, path).value)))
            && (e.Some? && IsLeaf(e.value) ==>
                  StoredLeaf(d, place + path, KeyOver(path, key), At(node, path).value, e.value))
    decreases |path|
  {
    if path == [] {
      assert place + path == place;
    } else {
      KeyOverTail(path, key);
      assert place + [path[0]] + path[1..] == place + path;
      match path[0]
      case Field(k) =>
        if node.Obj? && k in node.fields { EncryptAt(d, place + [path[0]], k, node.fields[k], path[1..]); }
      case Index(i) =>
        if node.Arr? && i < |node.items| { EncryptAt(d, place + [path[0]], key, node.items[i], path[1..]); }
    }
  }

  /** Decryption, value by value: a text with the prefix that can be decrypted is, and no other value changes. */
  lemma {:induction false} DecryptAt(d: Dpapi, node: Json, path: seq<Place>)
    ensures var e := At(Decrypt(d, node), path);
            && (e.Some? <==> At(node, path).Some?)
            && (e.Some? ==> e.value == Decrypt(d, At(node, path).value))
    decreases |path|
  {
    if path != [] {
      match path[0]
      case Field(k) => if node.Obj? && k in node.fields { DecryptAt(d, node.fields[k], path[1..]); }
      case Index(i) => if node.Arr? && i < |node.items| { DecryptAt(d, node.items[i], path[1..]); }
    }
  }

  /** What a leaf is after a load. */
  predicate LoadedLeaf(d: Dpapi, before: Json, after: Json)
  {
    if before.Str? && "dpapi:" <= before.s && d.unprotect(before.s[6..]).Some?
    then after == Str(d.unprotect(before.s[6..]).value)
    else after == before
  }

  lemma DecryptLeafIs(d: Dpapi, v: Json)
    requires IsLeaf(v)
    ensures LoadedLeaf(d, v, Decrypt(d, v))
  {
  }
}
