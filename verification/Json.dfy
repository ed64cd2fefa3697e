/** JSON trees, and the deep merge of netpulse/config.py. */
module Json {
  import opened Wrappers

  datatype Json =
    | Null
    | Bool(b: bool)
    | Num(n: real)
    | Str(s: string)
    | Arr(items: seq<Json>)
    | Obj(fields: map<string, Json>)

  /** bool(j) */
  predicate Truthy(j: Json)
  {
    match j
    case Null => false
    case Bool(b) => b
    case Num(n) => n != 0.0
    case Str(s) => s != ""
    case Arr(a) => a != []
    case Obj(m) => m != map[]
  }

  /** All values but six are true. */
  lemma TruthyIff(j: Json)
    ensures Truthy(j) <==> j !in {Null, Bool(false), Num(0.0), Str(""), Arr([]), Obj(map[])}
  {
  }

  /** j.get(k) of a dict. */
  function Get(j: Json, k: string): Option<Json>
    requires j.Obj?
  {
    if k in j.fields then Some(j.fields[k]) else None
  }

  const EMPTY := Obj(map[])

  // ---------- _deep_merge ----------

  /** base after _deep_merge(base, extra). */
  function Merge(base: Json, extra: Json): (r: Json)
    requires base.Obj? && extra.Obj?
    ensures r.Obj? && r.fields.Keys == base.fields.Keys + extra.fields.Keys
    decreases extra
  {
    Obj(map k | k in base.fields.Keys + extra.fields.Keys ::
          if k !in extra.fields then base.fields[k]
          else if extra.fields[k].Obj? && k in base.fields && base.fields[k].Obj?
          then Merge(base.fields[k], extra.fields[k])
          else extra.fields[k])
  }

  /** The value a merge leaves under one key. */
  function Put(old_: Option<Json>, new_: Json): Json
  {
    if new_.Obj? && old_.Some? && old_.value.Obj? then Merge(old_.value, new_) else new_
  }

  lemma MergeAt(base: Json, extra: Json, k: string)
    requires base.Obj? && extra.Obj?
    ensures Get(Merge(base, extra), k)
         == if k in extra.fields then Some(Put(Get(base, k), extra.fields[k])) else Get(base, k)
  {
  }

  /** _deep_merge(base, extra): the loop over the items of extra. */
  method DeepMerge(base: Json, extra: Json) returns (r: Json)
    requires base.Obj? && extra.Obj?
    ensures r == Merge(base, extra)
    decreases extra
  {
    r := base;
    var todo := extra.fields.Keys;
    while todo != {}
      invariant r.Obj? && todo <= extra.fields.Keys
      invariant r.fields.Keys == base.fields.Keys + (extra.fields.Keys - todo)
      invariant forall k :: k in r.fields && k in extra.fields && k !in todo
                            ==> r.fields[k] == Merge(base, extra).fields[k]
      invariant forall k :: k in r.fields && (k !in extra.fields || k in todo) ==> r.fields[k] == base.fields[k]
      decreases todo
    {
      var k :| k in todo;
      var v := extra.fields[k];
      if v.Obj? && k in r.fields && r.fields[k].Obj? {
        var merged := DeepMerge(r.fields[k], v);
        r := Obj(r.fields[k := merged]);
      } else {
        r := Obj(r.fields[k := v]);
      }
      todo := todo - {k};
    }
    assert r.fields == Merge(base, extra).fields;
  }

  /** Two objects that agree under every key are the same. */
  lemma SameObject(a: Json, b: Json)
    requires a.Obj? && b.Obj? && forall k :: Get(a, k) == Get(b, k)
    ensures a == b
  {
    forall k ensures k in a.fields <==> k in b.fields {
      assert Get(a, k) == Get(b, k);
    }
    forall k | k in a.fields ensures a.fields[k] == b.fields[k] {
      assert Get(a, k) == Get(b, k);
    }
    assert a.fields == b.fields;
  }

  // ---------- laws of the merge ----------

  /** Every key of d is in y, and so on inside the objects they share. */
  predicate Covers(d: Json, y: Json)
    requires d.Obj? && y.Obj?
    decreases d
  {
    forall k :: k in d.fields ==>
      k in y.fields && (d.fields[k].Obj? && y.fields[k].Obj? ==> Covers(d.fields[k], y.fields[k]))
  }

  lemma {:induction false} CoversSelf(d: Json)
    requires d.Obj?
    ensures Covers(d, d)
    decreases d
  {
    forall k | k in d.fields && d.fields[k].Obj? ensures Covers(d.fields[k], d.fields[k]) {
      CoversSelf(d.fields[k]);
    }
  }

  /** A merge into d covers d. */
  lemma {:induction false} MergeCovers(d: Json, x: Json)
    requires d.Obj? && x.Obj?
    ensures Covers(d, Merge(d, x))
    decreases d
  {
    var y := Merge(d, x);
    forall k | k in d.fields && d.fields[k].Obj? && y.fields[k].Obj? ensures Covers(d.fields[k], y.fields[k]) {
      if k in x.fields { MergeCovers(d.fields[k], x.fields[k]); } else { CoversSelf(d.fields[k]); }
    }
  }

  /** Merging into d what already covers d gives it back. */
  lemma {:induction false} CoveredMerge(d: Json, y: Json)
    requires d.Obj? && y.Obj? && Covers(d, y)
    ensures Merge(d, y) == y
    decreases d
  {
    forall k ensures Get(Merge(d, y), k) == Get(y, k) {
      MergeAt(d, y, k);
      if k in d.fields && d.fields[k].Obj? && y.fields[k].Obj? {
        CoveredMerge(d.fields[k], y.fields[k]);
      }
    }
    SameObject(Merge(d, y), y);
  }

  /** Absorption: defaults merged in twice are merged in once. */
  lemma MergeAbsorbs(d: Json, x: Json)
    requires d.Obj? && x.Obj?
    ensures Merge(d, Merge(d, x)) == Merge(d, x)
  {
    MergeCovers(d, x);
    CoveredMerge(d, Merge(d, x));
  }

  /** Merging the same thing on top again changes nothing. */
  lemma {:induction false} MergeIdempotent(w: Json, e: Json)
    requires w.Obj? && e.Obj?
    ensures Merge(Merge(w, e), e) == Merge(w, e)
    decreases e
  {
    var u := Merge(w, e);
    forall k ensures Get(Merge(u, e), k) == Get(u, k) {
      MergeAt(u, e, k);
      MergeAt(w, e, k);
      if k in e.fields {
        var v := e.fields[k];
        if v.Obj? && k in w.fields && w.fields[k].Obj? {
          MergeIdempotent(w.fields[k], v);
        } else if v.Obj? {
          CoversSelf(v);
          CoveredMerge(v, v);
        }
      }
    }
    SameObject(Merge(u, e), u);
  }

  lemma PutIdempotent(w: Option<Json>, e: Json)
    ensures Put(Some(Put(w, e)), e) == Put(w, e)
  {
    if e.Obj? && w.Some? && w.value.Obj? {
      MergeIdempotent(w.value, e);
    } else if e.Obj? {
      CoversSelf(e);
      CoveredMerge(e, e);
    }
  }
}
