/** Values of a JSON tree by where they stand, and what the deep merge of netpulse/config.py leaves there. */
module JsonPaths {
  import opened Wrappers
  import opened Json

  /** One step down a tree. */
  datatype Place = Field(key: string) | Index(i: nat)

  /** What stands at a path. */
  function At(node: Json, path: seq<Place>): Option<Json>
    decreases |path|
  {
    if path == [] then Some(node)
    else
      match path[0]
      case Field(k) => if node.Obj? && k in node.fields then At(node.fields[k], path[1..]) else None
      case Index(i) => if node.Arr? && i < |node.items| then At(node.items[i], path[1..]) else None
  }

  /** The tree ends before a path among dicts: it says nothing of what stands there. */
  predicate Silent(node: Json, path: seq<Place>)
    decreases |path|
  {
    node.Obj? && path != [] && path[0].Field?
    && (path[0].key in node.fields ==> Silent(node.fields[path[0].key], path[1..]))
  }

  /** What is no dict in the tree merged in is there afterwards. */
  lemma {:induction false} MergeTakes(base: Json, extra: Json, path: seq<Place>)
    requires base.Obj? && extra.Obj? && At(extra, path).Some? && !At(extra, path).value.Obj?
    ensures At(Merge(base, extra), path) == At(extra, path)
    decreases |path|
  {
    var k := path[0].key;
    MergeAt(base, extra, k);
    if k in base.fields && base.fields[k].Obj? && extra.fields[k].Obj? {
      MergeTakes(base.fields[k], extra.fields[k], path[1..]);
    }
  }

  /** What is no dict in the base stays where the tree merged in is silent. */
  lemma {:induction false} MergeKeeps(base: Json, extra: Json, path: seq<Place>)
    requires base.Obj? && extra.Obj? && At(base, path).Some? && !At(base, path).value.Obj? && Silent(extra, path)
    ensures At(Merge(base, extra), path) == At(base, path)
    decreases |path|
  {
    var k := path[0].key;
    MergeAt(base, extra, k);
    if k in extra.fields { MergeKeeps(base.fields[k], extra.fields[k], path[1..]); }
  }

  /** And nothing else is there. */
  lemma {:induction false} MergeInvents(base: Json, extra: Json, path: seq<Place>)
    requires base.Obj? && extra.Obj? && At(Merge(base, extra), path).Some? && !At(Merge(base, extra), path).value.Obj?
    ensures At(Merge(base, extra), path) == At(extra, path)
         || (At(Merge(base, extra), path) == At(base, path) && Silent(extra, path))
    decreases |path|
  {
    var k := path[0].key;
    MergeAt(base, extra, k);
    if k in extra.fields && k in base.fields && base.fields[k].Obj? && extra.fields[k].Obj? {
      MergeInvents(base.fields[k], extra.fields[k], path[1..]);
    }
  }
}
