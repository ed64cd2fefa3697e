/** What the environment variables of netpulse/config.py set, and where. */
module EnvLeaves {
  import opened Wrappers
  import opened Json
  import opened JsonPaths
  import opened ConfigFile

  // ---------- the names ----------

  /** "_".join(keys) */
  function Joined(keys: seq<string>): string
    requires keys != []
  {
    if |keys| == 1 then keys[0] else keys[0] + "_" + Joined(keys[1..])
  }

  predicate Plain(keys: seq<string>) { keys != [] && forall i :: 0 <= i < |keys| ==> '_' !in keys[i] }

  /** A name splits at its underscores, and at nothing else. */
  lemma {:induction false} SplitJoins(keys: seq<string>)
    requires Plain(keys)
    ensures Split(Joined(keys)) == keys
    decreases |keys|
  {
    if |keys| == 1 {
      SplitWord(keys[0]);
    } else {
      SplitJoins(keys[1..]);
      SplitAt(keys[0], Joined(keys[1..]));
    }
  }

  lemma {:induction false} SplitWord(word: string)
    requires '_' !in word
    ensures Split(word) == [word]
  {
    if word != "" {
      SplitWord(word[1..]);
      assert [word[0]] + word[1..] == word;
    }
  }

  lemma {:induction false} SplitAt(word: string, rest: string)
    requires '_' !in word
    ensures Split(word + "_" + rest) == [word] + Split(rest)
  {
    var s := word + "_" + rest;
    if word == "" {
      assert s[1..] == rest;
    } else {
      assert s[1..] == word[1..] + "_" + rest && s[0] == word[0];
      SplitAt(word[1..], rest);
      var more := Split(s[1..]);
      assert more[0] == word[1..] && more[1..] == Split(rest) && [word[0]] + word[1..] == word;
    }
  }

  /** Where the keys of a variable lead. */
  function PathOf(keys: seq<string>): (path: seq<Place>)
    ensures |path| == |keys|
  {
    seq(|keys|, i requires 0 <= i < |keys| => Field(keys[i]))
  }

  lemma PathTail(keys: seq<string>)
    requires keys != []
    ensures PathOf(keys)[0] == Field(keys[0]) && PathOf(keys)[1..] == PathOf(keys[1..])
  {
  }

  // ---------- one variable ----------

  /** A dict that stands at the path is left alone; else the value is there afterwards. */
  lemma {:induction false} SetsAt(node: Json, keys: seq<string>, v: Json)
    requires keys != [] && SetPath(node, keys, v).Some?
    ensures var r := SetPath(node, keys, v).value;
            var old_ := At(node, PathOf(keys));
            if old_.Some? && old_.value.Obj? then At(r, PathOf(keys)) == old_ else At(r, PathOf(keys)) == Some(v)
    decreases |keys|
  {
    PathTail(keys);
    if |keys| == 1 {
      assert PathOf(keys)[1..] == [];
    } else {
      SetsAt(if keys[0] in node.fields then node.fields[keys[0]] else EMPTY, keys[1..], v);
    }
  }

  /** The path parts from the keys before either ends. */
  predicate Apart(keys: seq<string>, path: seq<Place>)
  {
    exists i :: 0 <= i < |keys| && i < |path| && path[i] != Field(keys[i])
  }

  /** What stands on another path stays. */
  lemma {:induction false} SetsNothingElse(node: Json, keys: seq<string>, v: Json, path: seq<Place>)
    requires keys != [] && SetPath(node, keys, v).Some? && Apart(keys, path)
    ensures At(SetPath(node, keys, v).value, path) == At(node, path)
    decreases |keys|
  {
    if |keys| > 1 && path[0] == Field(keys[0]) {
      var i :| 0 <= i < |keys| && i < |path| && path[i] != Field(keys[i]);
      assert path[1..][i - 1] != Field(keys[1..][i - 1]);
      SetsNothingElse(if keys[0] in node.fields then node.fields[keys[0]] else EMPTY, keys[1..], v, path[1..]);
      if keys[0] !in node.fields { NothingInEmpty(path[1..]); }
    }
  }

  lemma NothingInEmpty(path: seq<Place>)
    requires path != []
    ensures At(EMPTY, path).None?
  {
  }

  /** A variable cannot be set exactly when a value that is no dict stands on its way. */
  lemma {:induction false} RaisesIff(node: Json, keys: seq<string>, v: Json)
    requires keys != []
    ensures SetPath(node, keys, v).None? <==> exists i :: 0 <= i < |keys| && Blocks(At(node, PathOf(keys[..i])))
    decreases |keys|
  {
    assert PathOf(keys[..0]) == [] && At(node, []) == Some(node);
    if node.Obj? && |keys| > 1 {
      var child := if keys[0] in node.fields then node.fields[keys[0]] else EMPTY;
      RaisesIff(child, keys[1..], v);
      forall i | 1 <= i < |keys|
        ensures Blocks(At(node, PathOf(keys[..i]))) <==> Blocks(At(child, PathOf(keys[1..][..i - 1])))
      {
        PathTail(keys[..i]);
        assert keys[..i][1..] == keys[1..][..i - 1];
        if keys[0] !in node.fields && i > 1 { NothingInEmpty(PathOf(keys[1..][..i - 1])); }
      }
      if j :| 0 <= j < |keys[1..]| && Blocks(At(child, PathOf(keys[1..][..j]))) {
        assert Blocks(At(node, PathOf(keys[..j + 1]))) by { assert keys[1..][..j] == keys[1..][..j + 1 - 1]; }
      }
      if i :| 0 <= i < |keys| && Blocks(At(node, PathOf(keys[..i]))) {
        assert i > 0;
        assert Blocks(At(child, PathOf(keys[1..][..i - 1])));
      }
    }
  }

  predicate Blocks(v: Option<Json>) { v.Some? && !v.value.Obj? }

  // ---------- the variables ----------

  lemma LastVariable(raw: seq<(string, string)>, name: string, text: string, keys: seq<string>, parse: string -> Json)
    requires Plain(keys) && Lower(name) == Joined(keys) && EnvOverrides(raw, parse).Some?
    ensures EnvOverrides(raw + [("NETPULSE_" + name, text)], parse)
         == SetPath(EnvOverrides(raw, parse).value, keys, parse(text))
  {
    hide Split, Lower;
    SplitJoins(keys);
    var full := "NETPULSE_" + name;
    assert (raw + [(full, text)])[..|raw|] == raw;
    assert ENV_PREFIX <= full && full[|ENV_PREFIX|..] == name;
  }

  /** A variable of the prefix, behind all others, sets its value where its name leads, in lower case. */
  lemma VariableSets(raw: seq<(string, string)>, name: string, text: string, keys: seq<string>, parse: string -> Json)
    requires Plain(keys) && Lower(name) == Joined(keys) && EnvOverrides(raw, parse).Some?
    requires EnvOverrides(raw + [("NETPULSE_" + name, text)], parse).Some?
    ensures var before := At(EnvOverrides(raw, parse).value, PathOf(keys));
            At(EnvOverrides(raw + [("NETPULSE_" + name, text)], parse).value, PathOf(keys))
            == if before.Some? && before.value.Obj? then before else Some(parse(text))
  {
    hide EnvOverrides, SetPath;
    LastVariable(raw, name, text, keys, parse);
    SetsAt(EnvOverrides(raw, parse).value, keys, parse(text));
  }

  /** ... and nothing on any other path. */
  lemma OthersStay(raw: seq<(string, string)>, name: string, text: string, keys: seq<string>, parse: string -> Json,
                   path: seq<Place>)
    requires Plain(keys) && Lower(name) == Joined(keys) && EnvOverrides(raw, parse).Some? && Apart(keys, path)
    requires EnvOverrides(raw + [("NETPULSE_" + name, text)], parse).Some?
    ensures At(EnvOverrides(raw + [("NETPULSE_" + name, text)], parse).value, path)
         == At(EnvOverrides(raw, parse).value, path)
  {
    hide EnvOverrides, SetPath;
    LastVariable(raw, name, text, keys, parse);
    SetsNothingElse(EnvOverrides(raw, parse).value, keys, parse(text), path);
  }

  /** A variable without the prefix sets nothing at all. */
  lemma ForeignSetsNothing(raw: seq<(string, string)>, name: string, text: string, parse: string -> Json)
    requires !("NETPULSE_" <= name)
    ensures EnvOverrides(raw + [(name, text)], parse) == EnvOverrides(raw, parse)
  {
    assert (raw + [(name, text)])[..|raw|] == raw;
  }
}
