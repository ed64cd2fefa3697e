/** Object identifiers as arcs and as dotted text, and when one text is a prefix of another. */
module OidText {

  type Oid = seq<nat>

  const DIGITS := "0123456789"

  predicate IsDigit(c: char) { '0' <= c <= '9' }

  predicate AllDigits(s: string) { forall i :: 0 <= i < |s| ==> IsDigit(s[i]) }

  /** str(n) */
  function Decimal(n: nat): (s: string)
    ensures s != [] && AllDigits(s)
  {
    if n < 10 then [DIGITS[n]] else Decimal(n / 10) + [DIGITS[n % 10]]
  }

  /** int(s) */
  function Value(s: string): nat
    requires AllDigits(s)
  {
    if s == [] then 0 else 10 * Value(s[..|s| - 1]) + (s[|s| - 1] as int - '0' as int)
  }

  lemma {:induction false} DecimalValue(n: nat)
    ensures Value(Decimal(n)) == n
  {
    if n >= 10 {
      DecimalValue(n / 10);
      assert Decimal(n)[..|Decimal(n)| - 1] == Decimal(n / 10);
    }
  }

  /** ".".join(str(x) for x in oid) */
  function Text(oid: Oid): string
  {
    if oid == [] then ""
    else if |oid| == 1 then Decimal(oid[0])
    else Decimal(oid[0]) + "." + Text(oid[1..])
  }

  predicate StrictlyUnder(base: Oid, oid: Oid)
  {
    |base| < |oid| && oid[..|base|] == base
  }

  /** How many digits a text starts with. */
  function DigitRun(s: string): nat
  {
    if s == "" || !IsDigit(s[0]) then 0 else 1 + DigitRun(s[1..])
  }

  lemma {:induction false} DigitRunIs(a: string, t: string)
    requires AllDigits(a) && (t == "" || !IsDigit(t[0]))
    ensures DigitRun(a + t) == |a|
  {
    if a == "" {
      assert a + t == t;
    } else {
      assert (a + t)[1..] == a[1..] + t;
      DigitRunIs(a[1..], t);
    }
  }

  /** Two digit strings that are followed by a dot or by nothing and agree as prefixes are the same. */
  lemma SameHead(a: string, b: string, rest: string)
    requires AllDigits(a) && AllDigits(b) && a + "." <= b + rest && (rest == "" || rest[0] == '.')
    ensures a == b && rest != ""
  {
    var whole := b + rest;
    assert whole == a + ("." + whole[|a| + 1..]);
    DigitRunIs(a, "." + whole[|a| + 1..]);
    DigitRunIs(b, rest);
    assert a == whole[..|a|] == whole[..|b|] == b;
  }

  /** The string prefix test with the trailing dot is the arc prefix test. */
  lemma {:induction false} PrefixIsUnder(base: Oid, oid: Oid)
    requires base != []
    ensures Text(base) + "." <= Text(oid) <==> StrictlyUnder(base, oid)
    decreases |base|
  {
    if oid == [] {
      return;
    }
    var rest := if |oid| == 1 then "" else "." + Text(oid[1..]);
    assert Text(oid) == Decimal(oid[0]) + rest;
    if base[0] != oid[0] {
      if Text(base) + "." <= Text(oid) {
        HeadOf(base, Decimal(oid[0]) + rest);
        SameHead(Decimal(base[0]), Decimal(oid[0]), rest);
        DecimalValue(base[0]);
        DecimalValue(oid[0]);
        assert false;
      }
    } else if |base| == 1 {
      if Text(base) + "." <= Text(oid) {
        SameHead(Decimal(base[0]), Decimal(oid[0]), rest);
      }
      if StrictlyUnder(base, oid) {
        assert Text(oid) == (Text(base) + ".") + Text(oid[1..]);
      }
    } else {
      PrefixIsUnder(base[1..], oid[1..]);
      SameFirstArc(base, oid);
    }
  }

  /** Under one and the same first arc both tests are those of what follows it. */
  lemma SameFirstArc(base: Oid, oid: Oid)
    requires |base| > 1 && oid != [] && base[0] == oid[0]
    ensures StrictlyUnder(base, oid) <==> StrictlyUnder(base[1..], oid[1..])
    ensures Text(base) + "." <= Text(oid) <==> Text(base[1..]) + "." <= Text(oid[1..])
  {
    assert base == [base[0]] + base[1..] && oid == [oid[0]] + oid[1..];
    if |base| < |oid| { assert oid[..|base|] == [oid[0]] + oid[1..][..|base| - 1]; }
    TextsWithFirstArc(base, oid);
  }

  lemma TextsWithFirstArc(base: Oid, oid: Oid)
    requires |base| > 1 && oid != [] && base[0] == oid[0]
    ensures Text(base) + "." <= Text(oid) <==> Text(base[1..]) + "." <= Text(oid[1..])
  {
    hide Decimal;
    var d, b, o := Decimal(base[0]), Text(base[1..]), Text(oid[1..]);
    assert Text(base) + "." == (d + ".") + (b + ".");
    if |oid| == 1 {
      assert |Text(base) + "."| > |d|;
    } else {
      assert Text(oid) == (d + ".") + o;
      CancelPrefix(d + ".", b + ".", o);
    }
  }

  lemma CancelPrefix(p: string, a: string, b: string)
    ensures p + a <= p + b <==> a <= b
  {
    if p + a <= p + b {
      assert a == (p + a)[|p|..] && b[..|a|] == (p + b)[|p|..|p| + |a|];
    }
    if a <= b {
      assert p + b == (p + a) + b[|a|..];
    }
  }

  lemma HeadOf(base: Oid, t: string)
    requires base != [] && Text(base) + "." <= t
    ensures Decimal(base[0]) + "." <= t
  {
    if |base| > 1 {
      assert Text(base) + "." == (Decimal(base[0]) + ".") + (Text(base[1..]) + ".");
    }
  }

  /** Distinct identifiers have distinct texts. */
  lemma TextInjective(a: Oid, b: Oid)
    requires a != [] && b != [] && Text(a) == Text(b)
    ensures a == b
  {
    // a extended by one arc lies under a, so its text lies under the text of b, and conversely.
    Extended(a);
    Extended(b);
    PrefixIsUnder(a, b + [0]);
    PrefixIsUnder(b, a + [0]);
    assert StrictlyUnder(a, b + [0]) && StrictlyUnder(b, a + [0]);
    assert (b + [0])[..|a|] == a && (a + [0])[..|b|] == b;
  }

  lemma {:induction false} Extended(a: Oid)
    requires a != []
    ensures Text(a + [0]) == Text(a) + ".0"
    decreases |a|
  {
    if |a| == 1 {
      assert (a + [0])[1..] == [0];
      assert Text([0]) == "0";
    } else {
      assert (a + [0])[1..] == a[1..] + [0];
      Extended(a[1..]);
    }
  }
}
