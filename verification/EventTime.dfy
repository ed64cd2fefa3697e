/**
 The times note_event of netpulse/inventory.py compares as texts: the ISO text stored with an event,
 which has a 'T' between date and time, and the cutoff SQLite computes, which has a space there.
 */
module EventTime {

  // ---------- the calendar ----------

  datatype Date = Date(year: int, month: int, day: int)

  predicate IsLeap(year: int) { year % 4 == 0 && (year % 100 != 0 || year % 400 == 0) }

  function DaysIn(year: int, month: int): (n: int)
    ensures 28 <= n <= 31
  {
    if month == 2 then (if IsLeap(year) then 29 else 28)
    else if month == 4 || month == 6 || month == 9 || month == 11 then 30
    else 31
  }

  predicate Real(d: Date) { 1 <= d.month <= 12 && 1 <= d.day <= DaysIn(d.year, d.month) }

  predicate Earlier(a: Date, b: Date)
  {
    a.year < b.year || (a.year == b.year && (a.month < b.month || (a.month == b.month && a.day < b.day)))
  }

  function NextDay(d: Date): (e: Date)
    requires Real(d)
    ensures Real(e) && Earlier(d, e)
  {
    if d.day < DaysIn(d.year, d.month) then d.(day := d.day + 1)
    else if d.month < 12 then Date(d.year, d.month + 1, 1)
    else Date(d.year + 1, 1, 1)
  }

  function DayBefore(d: Date): (e: Date)
    requires Real(d)
    ensures Real(e) && Earlier(e, d)
  {
    if d.day > 1 then d.(day := d.day - 1)
    else if d.month > 1 then Date(d.year, d.month - 1, DaysIn(d.year, d.month - 1))
    else Date(d.year - 1, 12, 31)
  }

  /** The date of a day, counted from 1 January 1970. */
  function DateOf(n: int): (d: Date)
    ensures Real(d)
    decreases if n >= 0 then n else -n
  {
    if n == 0 then Date(1970, 1, 1) else if n > 0 then NextDay(DateOf(n - 1)) else DayBefore(DateOf(n + 1))
  }

  /** Later days have later dates. */
  lemma {:induction false} DatesGrow(a: int, b: int)
    requires a < b
    ensures Earlier(DateOf(a), DateOf(b))
    decreases b - a
  {
    if a + 1 < b {
      DatesGrow(a, b - 1);
      DatesGrow(b - 1, b);
    } else if b <= 0 {
      assert DateOf(a) == DayBefore(DateOf(b));
    }
  }

  // ---------- the texts ----------

  function Digit(n: int): char
    requires 0 <= n < 10
  {
    '0' + n as char
  }

  /** n in k digits, with zeros in front. */
  function Padded(n: int, k: nat): (s: string)
    ensures |s| == k
    decreases k
  {
    if k == 0 then "" else Padded(n / 10, k - 1) + [Digit(n % 10)]
  }

  function DateText(d: Date): (s: string)
    ensures |s| == 10
  {
    Padded(d.year, 4) + "-" + (Padded(d.month, 2) + "-" + Padded(d.day, 2))
  }

  /** hh:mm:ss of a second of the day. */
  function ClockText(second: int): string
  {
    Padded(second / 3600, 2) + ":" + Padded(second / 60 % 60, 2) + ":" + Padded(second % 60, 2)
  }

  function DayOf(t: real): int { (t / 86400.0).Floor }

  function SecondOf(t: real): int { (t - 86400.0 * DayOf(t) as real).Floor }

  function MicrosOf(t: real): int { ((t - t.Floor as real) * 1000000.0).Floor }

  /** datetime.isoformat(), which leaves out microseconds that are zero. */
  function IsoText(t: real): string
  {
    DateText(DateOf(DayOf(t))) + "T" + ClockText(SecondOf(t))
    + if MicrosOf(t) == 0 then "" else "." + Padded(MicrosOf(t), 6)
  }

  /** datetime(...) of SQLite. */
  function SqlText(t: real): string
  {
    DateText(DateOf(DayOf(t))) + " " + ClockText(SecondOf(t))
  }

  /** The order of texts. */
  predicate Less(a: string, b: string)
    decreases |a|
  {
    b != [] && (a == [] || a[0] < b[0] || (a[0] == b[0] && Less(a[1..], b[1..])))
  }

  // ---------- the comparison ----------

  /** Heads of one length decide, unless they are the same. */
  lemma {:induction false} HeadsDecide(p: string, q: string, x: string, y: string)
    requires |p| == |q|
    ensures Less(p + x, q + y) <==> Less(p, q) || (p == q && Less(x, y))
    decreases |p|
  {
    if p == [] {
      assert p + x == x && q + y == y;
    } else {
      assert (p + x)[1..] == p[1..] + x && (q + y)[1..] == q[1..] + y;
      HeadsDecide(p[1..], q[1..], x, y);
      assert p == [p[0]] + p[1..] && q == [q[0]] + q[1..];
    }
  }

  function Power10(k: nat): int { if k == 0 then 1 else 10 * Power10(k - 1) }

  /** Numbers in the same number of digits are in the order of their texts. */
  lemma {:induction false} DigitsOrder(m: int, n: int, k: nat)
    requires 0 <= m < Power10(k) && 0 <= n < Power10(k)
    ensures (Less(Padded(m, k), Padded(n, k)) <==> m < n) && (Padded(m, k) == Padded(n, k) <==> m == n)
  {
    if k > 0 {
      DigitsOrder(m / 10, n / 10, k - 1);
      HeadsDecide(Padded(m / 10, k - 1), Padded(n / 10, k - 1), [Digit(m % 10)], [Digit(n % 10)]);
      SameSnoc(Padded(m / 10, k - 1), Padded(n / 10, k - 1), Digit(m % 10), Digit(n % 10));
      OneDigit(m % 10, n % 10);
    }
  }

  lemma SameSnoc(a: string, b: string, c: char, d: char)
    ensures a + [c] == b + [d] <==> a == b && c == d
  {
    if a + [c] == b + [d] {
      assert (a + [c])[|a|] == c && (b + [d])[|b|] == d;
      assert a == (a + [c])[..|a|] && b == (b + [d])[..|b|];
    }
  }

  lemma OneDigit(m: int, n: int)
    requires 0 <= m < 10 && 0 <= n < 10
    ensures (Less([Digit(m)], [Digit(n)]) <==> m < n) && (Digit(m) == Digit(n) <==> m == n)
  {
  }

  /** Years Python and SQLite can write. */
  predicate InRange(t: real) { 0 <= DateOf(DayOf(t)).year <= 9999 }

  lemma DatesOrder(a: Date, b: Date)
    requires Real(a) && Real(b) && 0 <= a.year <= 9999 && 0 <= b.year <= 9999
    ensures (Less(DateText(a), DateText(b)) <==> Earlier(a, b)) && (DateText(a) == DateText(b) <==> a == b)
  {
    assert Power10(4) == 10000 && Power10(2) == 100;
    DigitsOrder(a.year, b.year, 4);
    DigitsOrder(a.month, b.month, 2);
    DigitsOrder(a.day, b.day, 2);
    hide Padded, Less;
    FieldsDecide(Padded(a.month, 2), Padded(b.month, 2), Padded(a.day, 2), Padded(b.day, 2));
    FieldsDecide(Padded(a.year, 4), Padded(b.year, 4), Padded(a.month, 2) + "-" + Padded(a.day, 2),
                 Padded(b.month, 2) + "-" + Padded(b.day, 2));
  }

  /** The same for heads that end in a dash. */
  lemma FieldsDecide(p: string, q: string, x: string, y: string)
    requires |p| == |q|
    ensures Less(p + "-" + x, q + "-" + y) <==> Less(p, q) || (p == q && Less(x, y))
    ensures p + "-" + x == q + "-" + y <==> p == q && x == y
  {
    HeadsDecide(p + "-", q + "-", x, y);
    HeadsDecide(p, q, "-", "-");
    assert !Less("-", "-");
    SameHeads(p + "-", q + "-", x, y);
    SameHeads(p, q, "-", "-");
  }

  lemma SameHeads(p: string, q: string, x: string, y: string)
    requires |p| == |q|
    ensures p + x == q + y <==> p == q && x == y
  {
    if p + x == q + y {
      assert p == (p + x)[..|p|] && q == (q + y)[..|q|] && x == (p + x)[|p|..] && y == (q + y)[|q|..];
    }
  }

  /** A space comes before a 'T', whatever follows. */
  lemma SpaceFirst(x: string, y: string)
    ensures Less(" " + x, "T" + y)
  {
  }

  /** What IsoText writes behind the 'T'. */
  function IsoTail(t: real): string
  {
    ClockText(SecondOf(t)) + if MicrosOf(t) == 0 then "" else "." + Padded(MicrosOf(t), 6)
  }

  /** The comparison of the two texts is a comparison of days: on the day of the cutoff every event is the later one. */
  lemma TextsCompareDays(cutoff: real, at: real)
    requires InRange(cutoff) && InRange(at)
    ensures Less(SqlText(cutoff), IsoText(at)) <==> DayOf(cutoff) <= DayOf(at)
  {
    hide Less, ClockText, DateText, DateOf, Padded, DayOf, SecondOf, MicrosOf;
    var c, a := DateOf(DayOf(cutoff)), DateOf(DayOf(at));
    DatesOrder(c, a);
    HeadsDecide(DateText(c), DateText(a), " " + ClockText(SecondOf(cutoff)), "T" + IsoTail(at));
    SpaceFirst(ClockText(SecondOf(cutoff)), IsoTail(at));
    assert SqlText(cutoff) == DateText(c) + (" " + ClockText(SecondOf(cutoff)));
    assert IsoText(at) == DateText(a) + ("T" + IsoTail(at));
    if DayOf(cutoff) < DayOf(at) { DatesGrow(DayOf(cutoff), DayOf(at)); }
    if DayOf(at) < DayOf(cutoff) { DatesGrow(DayOf(at), DayOf(cutoff)); }
  }

  // ---------- the calendar in closed form ----------

  /** Leap days from 1970 to the end of the year before. */
  function LeapDays(year: int): int { (year - 1969) / 4 - (year - 1901) / 100 + (year - 1601) / 400 }

  /** The day number of the first of January. */
  function YearStart(year: int): int { 365 * (year - 1970) + LeapDays(year) }

  const MONTHS := [31, 28, 31, 30, 31, 30, 31, 31, 30, 31, 30, 31]

  predicate Leap(year: int) { (year % 4 == 0 && year % 100 != 0) || year % 400 == 0 }

  function Length(year: int, month: int): int
    requires 1 <= month <= 12
  {
    MONTHS[month - 1] + if month == 2 && Leap(year) then 1 else 0
  }

  /** The days of a year before a month. */
  function MonthStart(year: int, month: int): int
    requires 1 <= month <= 13
    decreases month
  {
    if month == 1 then 0 else MonthStart(year, month - 1) + Length(year, month - 1)
  }

  function DayNumber(d: Date): int
    requires Real(d)
  {
    YearStart(d.year) + MonthStart(d.year, d.month) + d.day - 1
  }

  lemma LengthIs(year: int, month: int)
    requires 1 <= month <= 12
    ensures DaysIn(year, month) == Length(year, month)
  {
  }

  lemma YearAdds(year: int)
    ensures YearStart(year + 1) == YearStart(year) + MonthStart(year, 13)
  {
    assert LeapDays(year + 1) == LeapDays(year) + if Leap(year) then 1 else 0 by { LeapAdds(year); }
    MonthsAdd(year);
  }

  lemma MonthsAdd(year: int)
    ensures MonthStart(year, 13) == 365 + if Leap(year) then 1 else 0
  {
    assert MonthStart(year, 5) == 120 + if Leap(year) then 1 else 0;
    assert MonthStart(year, 9) == 243 + if Leap(year) then 1 else 0;
  }

  lemma LeapAdds(year: int)
    ensures LeapDays(year + 1) == LeapDays(year) + if Leap(year) then 1 else 0
  {
    Fourth(year);
    Hundredth(year);
    FourHundredth(year);
    Multiples(year);
  }

  lemma Fourth(year: int)
    ensures (year - 1968) / 4 == (year - 1969) / 4 + if year % 4 == 0 then 1 else 0
  {
    var q, r := year / 4, year % 4;
    assert year - 1968 == 4 * (q - 492) + r;
  }

  lemma Hundredth(year: int)
    ensures (year - 1900) / 100 == (year - 1901) / 100 + if year % 100 == 0 then 1 else 0
  {
    var q, r := year / 100, year % 100;
    assert year - 1900 == 100 * (q - 19) + r;
  }

  lemma FourHundredth(year: int)
    ensures (year - 1600) / 400 == (year - 1601) / 400 + if year % 400 == 0 then 1 else 0
  {
    var q, r := year / 400, year % 400;
    assert year - 1600 == 400 * (q - 4) + r;
  }

  lemma Multiples(year: int)
    ensures year % 400 == 0 ==> year % 100 == 0
    ensures year % 100 == 0 ==> year % 4 == 0
  {
    if year % 400 == 0 { Hundreds(year, 4 * (year / 400)); }
    if year % 100 == 0 { Fours(year, 25 * (year / 100)); }
  }

  lemma Hundreds(year: int, n: int)
    requires year == 100 * n
    ensures year % 100 == 0
  {
  }

  lemma Fours(year: int, n: int)
    requires year == 4 * n
    ensures year % 4 == 0
  {
  }

  /** The day after a date has the next number. */
  lemma NumberFollows(d: Date)
    requires Real(d)
    ensures DayNumber(NextDay(d)) == DayNumber(d) + 1
  {
    hide DaysIn, Length, YearStart;
    LengthIs(d.year, d.month);
    YearAdds(d.year);
  }

  lemma BeforeAndAfter(d: Date)
    requires Real(d)
    ensures NextDay(DayBefore(d)) == d
  {
  }

  lemma EpochIsZero()
    ensures DayNumber(Date(1970, 1, 1)) == 0
  {
  }

  /** The n-th day is the date whose number is n, in the calendar with a leap year every four years but three in 400. */
  lemma {:induction false} DateOfNumber(n: int)
    ensures DayNumber(DateOf(n)) == n
    decreases if n >= 0 then n else -n
  {
    EpochIsZero();
    hide DayNumber, NextDay, DayBefore;
    if n > 0 {
      DateOfNumber(n - 1);
      NumberFollows(DateOf(n - 1));
    } else if n < 0 {
      DateOfNumber(n + 1);
      BeforeAndAfter(DateOf(n + 1));
      NumberFollows(DateOf(n));
    }
  }

  // ---------- texts of one form ----------

  lemma ColonsDecide(p: string, q: string, x: string, y: string)
    requires |p| == |q|
    ensures Less(p + ":" + x, q + ":" + y) <==> Less(p, q) || (p == q && Less(x, y))
    ensures p + ":" + x == q + ":" + y <==> p == q && x == y
  {
    HeadsDecide(p + ":", q + ":", x, y);
    HeadsDecide(p, q, ":", ":");
    assert !Less(":", ":");
    SameHeads(p + ":", q + ":", x, y);
    SameHeads(p, q, ":", ":");
  }

  lemma ClocksOrder(a: int, b: int)
    requires 0 <= a < 86400 && 0 <= b < 86400
    ensures Less(ClockText(a), ClockText(b)) <==> a < b
  {
    assert Power10(2) == 100;
    var h, m, s := a / 3600, a / 60 % 60, a % 60;
    var i, n, t := b / 3600, b / 60 % 60, b % 60;
    DigitsOrder(h, i, 2);
    DigitsOrder(m, n, 2);
    DigitsOrder(s, t, 2);
    hide Padded, Less, Power10;
    ColonsDecide(Padded(m, 2), Padded(n, 2), Padded(s, 2), Padded(t, 2));
    ColonsDecide(Padded(h, 2), Padded(i, 2), Padded(m, 2) + ":" + Padded(s, 2), Padded(n, 2) + ":" + Padded(t, 2));
    assert ClockText(a) == Padded(h, 2) + ":" + (Padded(m, 2) + ":" + Padded(s, 2));
    assert ClockText(b) == Padded(i, 2) + ":" + (Padded(n, 2) + ":" + Padded(t, 2));
    Sexagesimal(a);
    Sexagesimal(b);
  }

  lemma Sexagesimal(a: int)
    requires 0 <= a
    ensures a == 3600 * (a / 3600) + 60 * (a / 60 % 60) + a % 60
  {
  }

  /** Had both times the form of the cutoff, the order of the texts would be that of the times, to the second. */
  lemma OneFormCompares(a: real, b: real)
    requires InRange(a) && InRange(b)
    ensures Less(SqlText(a), SqlText(b)) <==> a.Floor < b.Floor
  {
    hide Less, ClockText, DateText, DateOf, Padded;
    var c, d := DateOf(DayOf(a)), DateOf(DayOf(b));
    DatesOrder(c, d);
    SecondsOf(a);
    SecondsOf(b);
    HeadsDecide(DateText(c), DateText(d), " " + ClockText(SecondOf(a)), " " + ClockText(SecondOf(b)));
    HeadsDecide(" ", " ", ClockText(SecondOf(a)), ClockText(SecondOf(b)));
    NotLess(" ");
    ClocksOrder(SecondOf(a), SecondOf(b));
    assert SqlText(a) == DateText(c) + (" " + ClockText(SecondOf(a)));
    assert SqlText(b) == DateText(d) + (" " + ClockText(SecondOf(b)));
    if DayOf(a) < DayOf(b) { DatesGrow(DayOf(a), DayOf(b)); }
    if DayOf(b) < DayOf(a) { DatesGrow(DayOf(b), DayOf(a)); }
  }

  lemma NotLess(s: string)
    ensures !Less(s, s)
  {
  }

  lemma SecondsOf(t: real)
    ensures 0 <= SecondOf(t) < 86400 && t.Floor == 86400 * DayOf(t) + SecondOf(t)
  {
    var d := DayOf(t);
    assert d as real <= t / 86400.0 < d as real + 1.0;
    assert 86400.0 * d as real <= t < 86400.0 * d as real + 86400.0;
    assert (86400 * d) as real == 86400.0 * d as real;
  }
}
