/** snmp_walk of netpulse/l2map.py: repeated GETNEXT from a base identifier. */
module SnmpWalk {
  import opened OidText

  type Val = string

  /** One response: the (identifier text, value) pairs of snmp_getnext; empty for a timeout or an error. */
  type Reply = seq<(string, Val)>

  /** Any agent: what it answers to the n-th request, for the text asked for. */
  type Agent = (nat, string) -> Reply

  /** The identifier snmp_getnext returns first: that of the last pair, or nothing. */
  function EndOf(pairs: Reply): string
  {
    if pairs == [] then "" else pairs[|pairs| - 1].0
  }

  /** The inner loop over the pairs of one response: the grown result, and whether the limit was hit. */
  function Collect(pairs: Reply, prefix: string, limit: int, result: Reply): (Reply, bool)
    decreases |pairs|
  {
    if pairs == [] then (result, false)
    else if !(prefix <= pairs[0].0) then Collect(pairs[1..], prefix, limit, result)
    else if |result| + 1 >= limit then (result + [pairs[0]], true)
    else Collect(pairs[1..], prefix, limit, result + [pairs[0]])
  }

  /** The outer loop from any of its states: the result and the number of requests made. */
  function WalkFrom(agent: Agent, base: string, limit: int, current: string, guard: nat, result: Reply): (Reply, nat)
    decreases limit - guard
  {
    if current == "" || guard >= limit then (result, guard)
    else
      var pairs := agent(guard, current);
      var end := EndOf(pairs);
      if end == "" || !(base <= end) then (result, guard + 1)
      else
        var (grown, full) := Collect(pairs, base + ".", limit, result);
        if full then (grown, guard + 1) else WalkFrom(agent, base, limit, end, guard + 1, grown)
  }

  /**
   A response that goes on under the base is followed by a request for its last identifier, one that does not, or is
   empty, by none.
   */
  lemma AsksForLast(agent: Agent, base: string, limit: int, current: string, guard: nat, result: Reply)
    requires current != "" && guard < limit && agent(guard, current) != []
    ensures var pairs := agent(guard, current);
            var last := pairs[|pairs| - 1].0;
            var (grown, full) := Collect(pairs, base + ".", limit, result);
            WalkFrom(agent, base, limit, current, guard, result)
              == if last == "" || !(base <= last) then (result, guard + 1)
                 else if full then (grown, guard + 1)
                 else WalkFrom(agent, base, limit, last, guard + 1, grown)
  {
  }

  method CollectPairs(pairs: Reply, prefix: string, limit: int, before: Reply) returns (result: Reply, full: bool)
    ensures (result, full) == Collect(pairs, prefix, limit, before)
    ensures |before| < limit || before == [] ==>
            (full || |result| < limit || result == []) && |result| <= |before| + |pairs|
    ensures full && |before| < limit ==> |result| == limit
    ensures (forall j :: 0 <= j < |before| ==> prefix <= before[j].0)
            ==> forall j :: 0 <= j < |result| ==> prefix <= result[j].0
  {
    result, full := before, false;
    var i := 0;
    while i < |pairs|
      invariant 0 <= i <= |pairs| && |result| <= |before| + i && !full
      invariant |before| < limit || before == [] ==> |result| < limit || result == []
      invariant (forall j :: 0 <= j < |before| ==> prefix <= before[j].0)
                ==> forall j :: 0 <= j < |result| ==> prefix <= result[j].0
      invariant Collect(pairs[i..], prefix, limit, result) == Collect(pairs, prefix, limit, before)
    {
      assert pairs[i..][1..] == pairs[i + 1..];
      if prefix <= pairs[i].0 {
        result := result + [pairs[i]];
        if |result| >= limit { return result, true; }
      }
      i := i + 1;
    }
  }

  method Walk(agent: Agent, base: string, limit: int) returns (result: Reply, guard: nat)
    ensures (result, guard) == WalkFrom(agent, base, limit, base, 0, [])
    ensures guard <= limit || guard == 0
    ensures |result| <= limit || result == []
    ensures forall i :: 0 <= i < |result| ==> base + "." <= result[i].0
  {
    hide Collect;
    result, guard := [], 0;
    var current := base;
    while current != "" && guard < limit
      invariant guard <= limit || guard == 0
      invariant |result| < limit || result == []
      invariant forall i :: 0 <= i < |result| ==> base + "." <= result[i].0
      invariant WalkFrom(agent, base, limit, current, guard, result) == WalkFrom(agent, base, limit, base, 0, [])
      decreases limit - guard
    {
      var pairs := agent(guard, current);
      guard := guard + 1;
      var end := EndOf(pairs);
      if end == "" { break; }
      if !(base <= end) { break; }
      var full;
      result, full := CollectPairs(pairs, base + ".", limit, result);
      if full { return; }
      current := end;
    }
  }

  // ---------- an agent that serves a sorted table ----------

  type Table = seq<(Oid, Val)>

  /** The lexicographic order of identifiers. */
  predicate Less(a: Oid, b: Oid)
  {
    b != [] && (a == [] || a[0] < b[0] || (a[0] == b[0] && Less(a[1..], b[1..])))
  }

  predicate Sorted(table: Table)
  {
    (forall i :: 0 <= i < |table| ==> table[i].0 != [])
    && forall i, j :: 0 <= i < j < |table| ==> Less(table[i].0, table[j].0)
  }

  /** How many entries come at or before oid; the next entry, if any, has this index. */
  function Passed(table: Table, oid: Oid): (n: nat)
    ensures n <= |table|
  {
    if table == [] then 0
    else if Less(oid, table[0].0) then 0
    else 1 + Passed(table[1..], oid)
  }

  function Named(e: (Oid, Val)): (string, Val) { (Text(e.0), e.1) }

  /**
   GETNEXT: the entry after oid.  Past the last entry an agent answers with an error status,
   which snmp_getnext turns into no pairs, or (v2c) repeats the identifier with endOfMibView.
   */
  function GetNext(table: Table, oid: Oid, repeats: bool, endOfMibView: Val): Reply
  {
    var i := Passed(table, oid);
    if i < |table| then [Named(table[i])]
    else if repeats then [(Text(oid), endOfMibView)]
    else []
  }

  /** What a walk can ask for: its base, and entries whose text begins with that of the base. */
  predicate Asked(table: Table, base: Oid, oid: Oid)
  {
    oid == base || exists i :: 0 <= i < |table| && table[i].0 == oid && Text(base) <= Text(oid)
  }

  /** The agent answers what a walk can ask for from its table. */
  ghost predicate Serves(agent: Agent, table: Table, base: Oid, repeats: bool, endOfMibView: Val)
  {
    forall n: nat, oid: Oid {:trigger agent(n, Text(oid))} ::
      Asked(table, base, oid) ==> agent(n, Text(oid)) == GetNext(table, oid, repeats, endOfMibView)
  }

  /** The entries strictly under base, in order. */
  function Subtree(table: Table, base: Oid): Table
  {
    if table == [] then []
    else if StrictlyUnder(base, table[0].0) then [table[0]] + Subtree(table[1..], base)
    else Subtree(table[1..], base)
  }

  function AllNamed(t: Table): (r: Reply)
    ensures |r| == |t|
    ensures forall i :: 0 <= i < |t| ==> r[i] == Named(t[i])
  {
    seq(|t|, i requires 0 <= i < |t| => Named(t[i]))
  }

  function Min(a: nat, b: nat): nat { if a <= b then a else b }

  /** What a walk should return. */
  function Wanted(table: Table, base: Oid, limit: nat): Reply
  {
    var sub := Subtree(table, base);
    AllNamed(sub[..Min(|sub|, limit)])
  }

  lemma {:induction false} LessTransitive(a: Oid, b: Oid, c: Oid)
    requires Less(a, b) && Less(b, c)
    ensures Less(a, c)
    decreases |a|
  {
    if a != [] && b != [] && a[0] == b[0] && b[0] == c[0] {
      LessTransitive(a[1..], b[1..], c[1..]);
    }
  }

  lemma {:induction false} LessIrreflexive(a: Oid)
    ensures !Less(a, a)
    decreases |a|
  {
    if a != [] { LessIrreflexive(a[1..]); }
  }

  lemma {:induction false} UnderIsAfter(base: Oid, oid: Oid)
    requires StrictlyUnder(base, oid)
    ensures Less(base, oid)
    decreases |base|
  {
    if base != [] {
      assert oid[..|base|][0] == base[0] && oid[1..][..|base| - 1] == oid[..|base|][1..];
      UnderIsAfter(base[1..], oid[1..]);
    }
  }

  /** A subtree is an interval: what lies between its root and one of its members is a member. */
  lemma {:induction false} BetweenIsUnder(base: Oid, x: Oid, y: Oid)
    requires Less(base, x) && Less(x, y) && StrictlyUnder(base, y)
    ensures StrictlyUnder(base, x)
    decreases |base|
  {
    if base != [] {
      assert y[..|base|][0] == base[0] && y[1..][..|base| - 1] == y[..|base|][1..];
      assert base[0] <= x[0] <= y[0];
      BetweenIsUnder(base[1..], x[1..], y[1..]);
      assert x[..|base|] == [x[0]] + x[1..][..|base| - 1] == base;
    }
  }

  lemma {:induction false} PassedSplits(table: Table, oid: Oid)
    requires Sorted(table)
    ensures forall i :: 0 <= i < Passed(table, oid) ==> !Less(oid, table[i].0)
    ensures forall i :: Passed(table, oid) <= i < |table| ==> Less(oid, table[i].0)
  {
    if table != [] {
      if Less(oid, table[0].0) {
        forall i | 0 < i < |table| ensures Less(oid, table[i].0) {
          LessTransitive(oid, table[0].0, table[i].0);
        }
      } else {
        assert forall i :: 0 <= i < |table[1..]| ==> table[1..][i] == table[i + 1];
        PassedSplits(table[1..], oid);
      }
    }
  }

  /** The entry after entry k is entry k + 1. */
  lemma NextIsNext(table: Table, k: nat)
    requires Sorted(table) && k < |table|
    ensures Passed(table, table[k].0) == k + 1
  {
    PassedSplits(table, table[k].0);
    LessIrreflexive(table[k].0);
    assert forall i :: k < i < |table| ==> Less(table[k].0, table[i].0);
  }

  /** The subtree is the run of entries that starts right after base. */
  lemma {:induction false} SubtreeIsRun(table: Table, base: Oid)
    requires Sorted(table)
    ensures var p := Passed(table, base);
            var m := |Subtree(table, base)|;
            p + m <= |table| && Subtree(table, base) == table[p..p + m]
            && (p + m < |table| ==> !StrictlyUnder(base, table[p + m].0))
  {
    if table != [] {
      var rest := table[1..];
      assert forall i :: 0 <= i < |rest| ==> rest[i] == table[i + 1];
      SubtreeIsRun(rest, base);
      var p, m := Passed(rest, base), |Subtree(rest, base)|;
      if Less(base, table[0].0) {
        assert p == 0 by {
          if rest != [] { LessTransitive(base, table[0].0, rest[0].0); }
        }
        if !StrictlyUnder(base, table[0].0) && m > 0 {
          UnderOf(rest, base, 0);
          BetweenIsUnder(base, table[0].0, rest[0].0);
        }
        assert Subtree(table, base) == table[0..|Subtree(table, base)|];
      } else {
        if StrictlyUnder(base, table[0].0) { UnderIsAfter(base, table[0].0); }
        assert !StrictlyUnder(base, table[0].0);
        assert Subtree(table, base) == Subtree(rest, base) == rest[p..p + m];
        TailSlice(table, p, m);
      }
    }
  }

  lemma TailSlice(table: Table, p: nat, m: nat)
    requires p + m + 1 <= |table|
    ensures table[1..][p..p + m] == table[p + 1..p + 1 + m]
  {
  }

  lemma {:induction false} UnderOf(table: Table, base: Oid, i: nat)
    requires i < |Subtree(table, base)|
    ensures StrictlyUnder(base, Subtree(table, base)[i].0)
    decreases |table|
  {
    if StrictlyUnder(base, table[0].0) {
      if i > 0 { UnderOf(table[1..], base, i - 1); }
    } else {
      UnderOf(table[1..], base, i);
    }
  }

  /** Entries from the end of the subtree on are not under base. */
  lemma BeyondIsOutside(table: Table, base: Oid, i: nat)
    requires Sorted(table) && Passed(table, base) + |Subtree(table, base)| <= i < |table|
    ensures !StrictlyUnder(base, table[i].0)
  {
    var e := Passed(table, base) + |Subtree(table, base)|;
    SubtreeIsRun(table, base);
    if e < i && StrictlyUnder(base, table[i].0) {
      PassedSplits(table, base);
      BetweenIsUnder(base, table[e].0, table[i].0);
    }
  }

  /** The identifier asked for after k answers from the table. */
  function Cursor(table: Table, base: Oid, k: nat): Oid
    requires Passed(table, base) + k <= |table|
  {
    if k == 0 then base else table[Passed(table, base) + k - 1].0
  }

  lemma CursorPassed(table: Table, base: Oid, k: nat)
    requires Sorted(table) && Passed(table, base) + k <= |table|
    ensures Passed(table, Cursor(table, base, k)) == Passed(table, base) + k
  {
    if k > 0 { NextIsNext(table, Passed(table, base) + k - 1); }
  }

  lemma TextStarts(base: Oid, oid: Oid)
    requires base != [] && StrictlyUnder(base, oid)
    ensures Text(base) <= Text(oid) && Text(oid) != ""
  {
    PrefixIsUnder(base, oid);
    assert Text(base) <= Text(base) + ".";
  }

  lemma AskedOf(table: Table, base: Oid, k: nat)
    requires Sorted(table) && base != [] && k <= |Subtree(table, base)|
    ensures Passed(table, base) + k <= |table| && Asked(table, base, Cursor(table, base, k))
  {
    SubtreeIsRun(table, base);
    if k > 0 {
      UnderOf(table, base, k - 1);
      assert Subtree(table, base)[k - 1] == table[Passed(table, base) + k - 1];
      TextStarts(base, Cursor(table, base, k));
    }
  }

  /** Inside the subtree each request yields the next entry. */
  lemma {:induction false} WalkInside(agent: Agent, table: Table, base: Oid, repeats: bool, eom: Val, limit: nat,
                                      k: nat)
    requires Serves(agent, table, base, repeats, eom) && Sorted(table) && base != []
    requires k <= |Subtree(table, base)| && k < limit
    ensures Passed(table, base) + k <= |table|
    ensures WalkFrom(agent, Text(base), limit, Text(base), 0, [])
         == WalkFrom(agent, Text(base), limit, Text(Cursor(table, base, k)), k, AllNamed(Subtree(table, base)[..k]))
  {
    SubtreeIsRun(table, base);
    var sub := Subtree(table, base);
    if k == 0 {
      assert AllNamed(sub[..0]) == [];
    } else {
      WalkInside(agent, table, base, repeats, eom, limit, k - 1);
      WalkOne(agent, table, base, repeats, eom, limit, k - 1);
    }
  }

  lemma WalkOne(agent: Agent, table: Table, base: Oid, repeats: bool, eom: Val, limit: nat, k: nat)
    requires Serves(agent, table, base, repeats, eom) && Sorted(table) && base != []
    requires k < |Subtree(table, base)| && k < limit
    requires Passed(table, base) + |Subtree(table, base)| <= |table|
    ensures WalkFrom(agent, Text(base), limit, Text(Cursor(table, base, k)), k, AllNamed(Subtree(table, base)[..k]))
         == if k + 1 == limit then (AllNamed(Subtree(table, base)[..k + 1]), k + 1)
            else WalkFrom(agent, Text(base), limit, Text(Cursor(table, base, k + 1)), k + 1,
                          AllNamed(Subtree(table, base)[..k + 1]))
  {
    hide Text, Passed, Subtree, StrictlyUnder, Less, Asked;
    var sub := Subtree(table, base);
    var p := Passed(table, base);
    var at := Cursor(table, base, k);
    SubtreeIsRun(table, base);
    UnderOf(table, base, k);
    assert sub[k] == table[p + k];
    CursorPassed(table, base, k);
    if k > 0 { UnderOf(table, base, k - 1); assert sub[k - 1].0 == at; TextStarts(base, at); }
    TextNonEmpty(base);
    AskedOf(table, base, k);
    assert agent(k, Text(at)) == GetNext(table, at, repeats, eom) == [Named(table[p + k])];
    TextStarts(base, table[p + k].0);
    PrefixIsUnder(base, table[p + k].0);
    assert AllNamed(sub[..k + 1]) == AllNamed(sub[..k]) + [Named(table[p + k])];
    CollectOne(Named(table[p + k]), Text(base) + ".", limit, AllNamed(sub[..k]));
  }

  lemma TextNonEmpty(oid: Oid)
    requires oid != []
    ensures Text(oid) != ""
  {
  }

  lemma CollectOne(pair: (string, Val), prefix: string, limit: int, result: Reply)
    ensures Collect([pair], prefix, limit, result)
         == if prefix <= pair.0 then (result + [pair], |result| + 1 >= limit) else (result, false)
  {
    assert [pair][1..] == [];
  }

  /** A walk standing on entry i, with nothing of the subtree ahead, adds nothing more. */
  lemma {:induction false} WalkOutside(agent: Agent, table: Table, base: Oid, repeats: bool, eom: Val, limit: nat,
                                       at: Oid, guard: nat, result: Reply)
    requires Serves(agent, table, base, repeats, eom) && Sorted(table) && base != [] && at != []
             && Asked(table, base, at)
    requires forall i :: Passed(table, at) <= i < |table| ==> !StrictlyUnder(base, table[i].0)
    requires repeats && Passed(table, at) == |table| ==> !StrictlyUnder(base, at)
    ensures WalkFrom(agent, Text(base), limit, Text(at), guard, result).0 == result
    decreases limit - guard
  {
    if guard < limit {
      var i := Passed(table, at);
      TextNonEmpty(at);
      assert agent(guard, Text(at)) == GetNext(table, at, repeats, eom);
      if i < |table| {
        PrefixIsUnder(base, table[i].0);
        CollectOne(Named(table[i]), Text(base) + ".", limit, result);
        NextIsNext(table, i);
        if Text(base) <= Text(table[i].0) {
          WalkOutside(agent, table, base, repeats, eom, limit, table[i].0, guard + 1, result);
        }
      } else if repeats {
        PrefixIsUnder(base, at);
        CollectOne((Text(at), eom), Text(base) + ".", limit, result);
        WalkOutside(agent, table, base, repeats, eom, limit, at, guard + 1, result);
      }
    }
  }

  /** A repeating agent that ends inside the subtree fills the result with copies up to the limit. */
  lemma {:induction false} WalkRepeats(agent: Agent, table: Table, base: Oid, eom: Val, limit: nat,
                                       at: Oid, guard: nat, result: Reply)
    requires Serves(agent, table, base, true, eom) && Asked(table, base, at) && base != [] && StrictlyUnder(base, at)
    requires Passed(table, at) == |table| && guard <= |result| < limit && guard < limit
    requires guard == |result|
    ensures |WalkFrom(agent, Text(base), limit, Text(at), guard, result).0| == limit
    decreases limit - guard
  {
    TextStarts(base, at);
    PrefixIsUnder(base, at);
    assert agent(guard, Text(at)) == GetNext(table, at, true, eom) == [(Text(at), eom)];
    CollectOne((Text(at), eom), Text(base) + ".", limit, result);
    if |result| + 1 < limit {
      WalkRepeats(agent, table, base, eom, limit, at, guard + 1, result + [(Text(at), eom)]);
    }
  }

  /** Whether the table goes on after the subtree of base. */
  predicate GoesOn(table: Table, base: Oid)
  {
    Passed(table, base) + |Subtree(table, base)| < |table|
  }

  /** The walk up to the limit, or to the end of the subtree. */
  lemma WalkToEnd(agent: Agent, table: Table, base: Oid, repeats: bool, eom: Val, limit: nat)
    requires Serves(agent, table, base, repeats, eom) && Sorted(table) && base != [] && limit > 0
    ensures Passed(table, base) + |Subtree(table, base)| <= |table|
    ensures WalkFrom(agent, Text(base), limit, Text(base), 0, [])
         == if |Subtree(table, base)| >= limit then (Wanted(table, base, limit), limit)
            else WalkFrom(agent, Text(base), limit, Text(Cursor(table, base, |Subtree(table, base)|)),
                          |Subtree(table, base)|, AllNamed(Subtree(table, base)))
  {
    var sub := Subtree(table, base);
    SubtreeIsRun(table, base);
    if |sub| >= limit {
      WalkInside(agent, table, base, repeats, eom, limit, limit - 1);
      WalkOne(agent, table, base, repeats, eom, limit, limit - 1);
    } else {
      WalkInside(agent, table, base, repeats, eom, limit, |sub|);
      assert sub[..|sub|] == sub;
    }
  }

  /**
   Against a sorted table, a walk returns exactly the first entries strictly under base, in
   order -- unless the agent repeats at its end, the subtree is short of the limit and not
   empty, and nothing follows it in the table.
   */
  lemma WalkExactIff(agent: Agent, table: Table, base: Oid, repeats: bool, eom: Val, limit: nat)
    requires Serves(agent, table, base, repeats, eom) && Sorted(table) && base != []
    ensures WalkFrom(agent, Text(base), limit, Text(base), 0, []).0 == Wanted(table, base, limit)
       <==> (!repeats || GoesOn(table, base) || Subtree(table, base) == [] || |Subtree(table, base)| >= limit)
  {
    var sub := Subtree(table, base);
    if limit == 0 {
      assert Wanted(table, base, 0) == [];
      return;
    }
    WalkToEnd(agent, table, base, repeats, eom, limit);
    if |sub| < limit {
      var m := |sub|;
      var at := Cursor(table, base, m);
      assert Wanted(table, base, limit) == AllNamed(sub) by { assert sub[..m] == sub; }
      CursorPassed(table, base, m);
      AskedOf(table, base, m);
      forall i | Passed(table, at) <= i < |table| ensures !StrictlyUnder(base, table[i].0) {
        BeyondIsOutside(table, base, i);
      }
      if m > 0 {
        SubtreeIsRun(table, base);
        UnderOf(table, base, m - 1);
        assert at == sub[m - 1].0;
      }
      if repeats && !GoesOn(table, base) && m > 0 {
        WalkRepeats(agent, table, base, eom, limit, at, m, AllNamed(sub));
      } else {
        WalkOutside(agent, table, base, repeats, eom, limit, at, m, AllNamed(sub));
      }
    }
  }
}
