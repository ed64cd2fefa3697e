/** ram_trend of netpulse/sysadmin.py over the reals: filter, sort, least-squares slope, bounded forecast. */
module RamTrend {
  import opened Wrappers

  /** A time and a percentage; None where float() raises. */
  type Raw = (Option<real>, Option<real>)

  type Point = (real, real)

  predicate Usable(p: Raw)
  {
    p.0.Some? && p.1.Some? && 0.0 <= p.1.value <= 100.0
  }

  function Filtered(points: seq<Raw>): seq<Point>
  {
    if points == [] then []
    else
      var init, p := Filtered(points[..|points| - 1]), points[|points| - 1];
      if Usable(p) then init + [(p.0.value, p.1.value)] else init
  }

  // ---------- values.sort() ----------

  /** The order of tuples. */
  predicate Before(a: Point, b: Point) { a.0 < b.0 || (a.0 == b.0 && a.1 <= b.1) }

  predicate Sorted(s: seq<Point>)
  {
    forall i, j :: 0 <= i < j < |s| ==> Before(s[i], s[j])
  }

  function Insert(s: seq<Point>, x: Point): (r: seq<Point>)
    ensures |r| == |s| + 1 && multiset(r) == multiset(s) + multiset{x}
  {
    if s == [] || Before(s[|s| - 1], x) then s + [x]
    else
      assert s == s[..|s| - 1] + [s[|s| - 1]];
      Insert(s[..|s| - 1], x) + [s[|s| - 1]]
  }

  function Sort(s: seq<Point>): (r: seq<Point>)
    ensures |r| == |s| && multiset(r) == multiset(s)
  {
    if s == [] then []
    else
      assert s == s[..|s| - 1] + [s[|s| - 1]];
      Insert(Sort(s[..|s| - 1]), s[|s| - 1])
  }

  lemma {:induction false} InsertSorted(s: seq<Point>, x: Point)
    requires Sorted(s)
    ensures Sorted(Insert(s, x))
    ensures Insert(s, x)[|s|] == if s == [] || Before(s[|s| - 1], x) then x else s[|s| - 1]
  {
    if s != [] && !Before(s[|s| - 1], x) {
      InsertSorted(s[..|s| - 1], x);
    }
  }

  lemma {:induction false} SortSorted(s: seq<Point>)
    ensures Sorted(Sort(s))
  {
    if s != [] {
      SortSorted(s[..|s| - 1]);
      InsertSorted(Sort(s[..|s| - 1]), s[|s| - 1]);
    }
  }

  // ---------- sums ----------

  /** How far a point is above the line y = a + b x. */
  function Residual(x: Point, a: real, b: real): real { x.1 - a - b * x.0 }

  function Cross(x: Point, p: real, q: real): real { (x.0 - p) * (x.1 - q) }

  /** Sums of x - p, of y - q, of (x - p)^2, of (x - p)(y - q). */
  function SumX(s: seq<Point>, p: real): real
  {
    if s == [] then 0.0 else SumX(s[..|s| - 1], p) + (s[|s| - 1].0 - p)
  }

  function SumY(s: seq<Point>, q: real): real
  {
    if s == [] then 0.0 else SumY(s[..|s| - 1], q) + (s[|s| - 1].1 - q)
  }

  function Square(x: real): real { x * x }

  function SumXX(s: seq<Point>, p: real): real
  {
    if s == [] then 0.0 else SumXX(s[..|s| - 1], p) + Square(s[|s| - 1].0 - p)
  }

  function SumXY(s: seq<Point>, p: real, q: real): real
  {
    if s == [] then 0.0 else SumXY(s[..|s| - 1], p, q) + Cross(s[|s| - 1], p, q)
  }

  function MeanX(s: seq<Point>): real
    requires s != []
  {
    SumX(s, 0.0) / |s| as real
  }

  function MeanY(s: seq<Point>): real
    requires s != []
  {
    SumY(s, 0.0) / |s| as real
  }

  function Slope(s: seq<Point>): real
    requires s != []
  {
    var denom := SumXX(s, MeanX(s));
    if denom == 0.0 then 0.0 else SumXY(s, MeanX(s), MeanY(s)) / denom
  }

  /** Squared error of the line y = a + b x. */
  function Error(s: seq<Point>, a: real, b: real): real
  {
    if s == [] then 0.0 else Error(s[..|s| - 1], a, b) + Square(Residual(s[|s| - 1], a, b))
  }

  lemma {:induction false} SumXShift(s: seq<Point>, p: real)
    ensures SumX(s, p) == SumX(s, 0.0) - |s| as real * p
  {
    if s != [] {
      SumXShift(s[..|s| - 1], p);
      assert |s| as real * p == (|s| - 1) as real * p + p;
    }
  }

  lemma {:induction false} SumYShift(s: seq<Point>, q: real)
    ensures SumY(s, q) == SumY(s, 0.0) - |s| as real * q
  {
    if s != [] {
      SumYShift(s[..|s| - 1], q);
      assert |s| as real * q == (|s| - 1) as real * q + q;
    }
  }

  /** Deviations from the mean add up to nothing. */
  lemma Centered(s: seq<Point>)
    requires s != []
    ensures SumX(s, MeanX(s)) == 0.0 && SumY(s, MeanY(s)) == 0.0
  {
    SumXShift(s, MeanX(s));
    SumYShift(s, MeanY(s));
    assert |s| as real * MeanX(s) == SumX(s, 0.0);
    assert |s| as real * MeanY(s) == SumY(s, 0.0);
  }

  /** The error of a line of slope b that passes d above q at p, less the error of the constant q, from the sums. */
  function Excess(b: real, d: real, xy: real, xx: real, y: real, x: real, n: real): real
  {
    -2.0 * (b * xy) + b * b * xx - 2.0 * (d * y) + 2.0 * (d * b * x) + d * d * n
  }

  lemma ExcessAdds(b: real, d: real, xy: real, xx: real, y: real, x: real, n: real,
                   xy': real, xx': real, y': real, x': real, n': real)
    ensures Excess(b, d, xy + xy', xx + xx', y + y', x + x', n + n')
         == Excess(b, d, xy, xx, y, x, n) + Excess(b, d, xy', xx', y', x', n')
  {
    var bb, db, dd := b * b, d * b, d * d;
    Distribute(b, xy, xy');
    Distribute(bb, xx, xx');
    Distribute(d, y, y');
    Distribute(db, x, x');
    Distribute(dd, n, n');
  }

  /** One term of the error, around (p, q). */
  lemma TermExpands(u: real, v: real, b: real, d: real)
    ensures Square(v - b * u - d) == Square(v) + Excess(b, d, u * v, Square(u), v, u, 1.0)
  {
    var w := b * u;
    assert (v - w - d) * (v - w - d) == v * v - 2.0 * (w * v) + w * w - 2.0 * (d * v) + 2.0 * (d * w) + d * d;
    assert w * w == b * b * (u * u);
    assert w * v == b * (u * v);
    assert d * w == d * b * u;
  }

  lemma Reline(x: Point, a: real, b: real, p: real, q: real, u: real, v: real, d: real)
    requires u == x.0 - p && v == x.1 - q && d == a + b * p - q
    ensures Residual(x, a, b) == v - b * u - d && Residual(x, q, 0.0) == v && Cross(x, p, q) == u * v
  {
    Distribute(b, u, p);
    assert u + p == x.0;
  }

  /** The error of any line through the sums around (p, q). */
  lemma {:induction false} ErrorExpands(s: seq<Point>, a: real, b: real, p: real, q: real)
    ensures Error(s, a, b) == Error(s, q, 0.0) + Excess(b, a + b * p - q, SumXY(s, p, q), SumXX(s, p), SumY(s, q),
                                                        SumX(s, p), |s| as real)
  {
    hide Excess, Square, Residual, Cross;
    var d := a + b * p - q;
    if s == [] {
      NoExcess(b, d);
    } else {
      var init, x := s[..|s| - 1], s[|s| - 1];
      var u, v := x.0 - p, x.1 - q;
      ErrorExpands(init, a, b, p, q);
      TermExpands(u, v, b, d);
      Reline(x, a, b, p, q, u, v, d);
      ExcessAdds(b, d, SumXY(init, p, q), SumXX(init, p), SumY(init, q), SumX(init, p), (|s| - 1) as real,
                 u * v, Square(u), v, u, 1.0);
      assert |init| as real + 1.0 == |s| as real;
      assert Error(s, a, b) == Error(init, a, b) + Square(v - b * u - d);
      assert Error(s, q, 0.0) == Error(init, q, 0.0) + Square(v);
      assert SumXY(s, p, q) == SumXY(init, p, q) + u * v && SumXX(s, p) == SumXX(init, p) + Square(u);
      assert SumY(s, q) == SumY(init, q) + v && SumX(s, p) == SumX(init, p) + u;
    }
  }

  lemma NoExcess(b: real, d: real)
    ensures Excess(b, d, 0.0, 0.0, 0.0, 0.0, 0.0) == 0.0
  {
  }

  lemma Distribute(k: real, a: real, b: real)
    ensures k * (a + b) == k * a + k * b
  {
  }

  lemma {:induction false} SumXXNonNegative(s: seq<Point>, p: real)
    ensures SumXX(s, p) >= 0.0
    ensures forall i :: 0 <= i < |s| && s[i].0 != p ==> SumXX(s, p) > 0.0
  {
    hide Square;
    if s != [] {
      var init := s[..|s| - 1];
      SumXXNonNegative(init, p);
      SquarePositive(s[|s| - 1].0 - p);
      forall i | 0 <= i < |s| && s[i].0 != p ensures SumXX(s, p) > 0.0 {
        assert i < |s| - 1 ==> init[i] == s[i];
      }
    }
  }

  lemma SquarePositive(x: real)
    ensures Square(x) >= 0.0 && (x != 0.0 ==> Square(x) > 0.0)
  {
    if x > 0.0 {
      calc { Square(x); == x * x; > { PositiveProduct(x, x); } 0.0; }
    } else if x < 0.0 {
      calc { Square(x); == x * x; == (-x) * (-x); > { PositiveProduct(-x, -x); } 0.0; }
    }
  }

  lemma PositiveProduct(a: real, b: real)
    requires a > 0.0 && b > 0.0
    ensures a * b > 0.0
  {
  }

  /** Two different times make the denominator positive. */
  lemma DenominatorPositive(s: seq<Point>, i: nat, j: nat, p: real)
    requires i < |s| && j < |s| && s[i].0 != s[j].0
    ensures SumXX(s, p) > 0.0
  {
    SumXXNonNegative(s, p);
    assert s[i].0 != p || s[j].0 != p;
  }

  /** Where the line of a slope through the means meets x = 0. */
  function Intercept(s: seq<Point>, slope: real): real
    requires s != []
  {
    MeanY(s) - slope * MeanX(s)
  }

  /** No line has a smaller squared error than the one through the means with this slope. */
  lemma LeastSquares(s: seq<Point>, a: real, b: real)
    requires s != [] && SumXX(s, MeanX(s)) > 0.0
    ensures Error(s, a, b) >= Error(s, Intercept(s, Slope(s)), Slope(s))
  {
    hide Excess, Error, SumXX, SumXY, SumX, SumY, MeanX, MeanY;
    var p, q, m := MeanX(s), MeanY(s), Slope(s);
    var xx, xy := SumXX(s, p), SumXY(s, p, q);
    Centered(s);
    ErrorExpands(s, a, b, p, q);
    ErrorExpands(s, Intercept(s, m), m, p, q);
    assert Intercept(s, m) + m * p - q == 0.0;
    Quotient(xy, xx);
    assert m == xy / xx && xy == m * xx;
    LeastExcess(b, m, xx, |s| as real, a + b * p - q);
  }

  lemma Quotient(a: real, b: real)
    requires b != 0.0
    ensures a / b * b == a
  {
  }

  lemma LeastExcess(b: real, m: real, xx: real, n: real, d: real)
    requires xx > 0.0 && n >= 0.0
    ensures Excess(b, d, m * xx, xx, 0.0, 0.0, n) >= Excess(m, 0.0, m * xx, xx, 0.0, 0.0, n)
  {
    SquarePositive(b - m);
    SquarePositive(d);
    ProductPositive(Square(b - m), xx);
    ProductPositive(Square(d), n);
    assert Square(b - m) * xx == b * b * xx - 2.0 * (b * (m * xx)) + m * (m * xx);
  }

  lemma ProductPositive(a: real, b: real)
    requires a >= 0.0 && b >= 0.0
    ensures a * b >= 0.0
  {
  }

  /** Points on a line. */
  predicate OnLine(s: seq<Point>, a: real, b: real)
  {
    forall i :: 0 <= i < |s| ==> s[i].1 == a + b * s[i].0
  }

  lemma LineTerm(b: real, u: real)
    ensures u * (b * u) == b * Square(u)
  {
    assert u * (b * u) == b * (u * u);
  }

  lemma LinePoint(x: Point, a: real, b: real, p: real, q: real)
    requires x.1 == a + b * x.0 && q == a + b * p
    ensures Cross(x, p, q) == b * Square(x.0 - p)
  {
    Distribute(b, x.0 - p, p);
    LineTerm(b, x.0 - p);
  }

  lemma {:induction false} LineCross(s: seq<Point>, a: real, b: real, p: real, q: real)
    requires OnLine(s, a, b) && q == a + b * p
    ensures SumXY(s, p, q) == b * SumXX(s, p)
  {
    hide Square, Cross;
    if s != [] {
      var init, x := s[..|s| - 1], s[|s| - 1];
      LineCross(init, a, b, p, q);
      LinePoint(x, a, b, p, q);
      Distribute(b, SumXX(init, p), Square(x.0 - p));
    }
  }

  lemma {:induction false} LineSum(s: seq<Point>, a: real, b: real)
    requires OnLine(s, a, b)
    ensures SumY(s, 0.0) == a * |s| as real + b * SumX(s, 0.0)
  {
    if s != [] {
      var init, x := s[..|s| - 1], s[|s| - 1];
      LineSum(init, a, b);
      Distribute(b, SumX(init, 0.0), x.0 - 0.0);
      Distribute(a, (|s| - 1) as real, 1.0);
      assert (|s| - 1) as real + 1.0 == |s| as real;
    }
  }

  /** The mean point of points on a line is on it. */
  lemma LineMean(s: seq<Point>, a: real, b: real)
    requires s != [] && OnLine(s, a, b)
    ensures MeanY(s) == a + b * MeanX(s)
  {
    hide OnLine, SumX, SumY;
    var n := |s| as real;
    LineSum(s, a, b);
    MeanOfLine(n, a, b, SumX(s, 0.0));
  }

  lemma MeanOfLine(n: real, a: real, b: real, x: real)
    requires n > 0.0
    ensures (a * n + b * x) / n == a + b * (x / n)
  {
    Quotient(x, n);
    Cancel(n, (a * n + b * x) / n, a + b * (x / n));
  }

  /** Exactly linear data gives back its slope. */
  lemma LinearSlope(s: seq<Point>, a: real, b: real)
    requires s != [] && OnLine(s, a, b) && SumXX(s, MeanX(s)) > 0.0
    ensures Slope(s) == b
  {
    hide OnLine, SumXX, SumXY, MeanX, MeanY;
    LineMean(s, a, b);
    LineCross(s, a, b, MeanX(s), MeanY(s));
    var xx := SumXX(s, MeanX(s));
    var t := b * xx;
    assert Slope(s) == t / xx;
    Quotient(t, xx);
    Cancel(xx, t / xx, b);
  }

  lemma Cancel(n: real, a: real, b: real)
    requires n > 0.0 && n * a == n * b
    ensures a == b
  {
  }

  // ---------- the report ----------

  datatype Trend = TooFew(n: nat)
                 | Trend(last: real, slope: real, n: nat, span: real, horizon: real, secondsTo95: Option<real>)

  function Relative(s: seq<Point>): (r: seq<Point>)
    ensures |r| == |s|
    ensures forall i :: 0 <= i < |s| ==> r[i] == (s[i].0 - s[0].0, s[i].1)
  {
    seq(|s|, i requires 0 <= i < |s| => (s[i].0 - s[0].0, s[i].1))
  }

  function MinReal(a: real, b: real): real { if a <= b then a else b }

  function Forecast(slope: real, last: real, horizon: real): Option<real>
  {
    if slope > 0.000001 then
      var seconds := if (95.0 - last) / slope > 0.0 then (95.0 - last) / slope else 0.0;
      if seconds <= horizon then Some(seconds) else None
    else None
  }

  function TrendOf(values: seq<Point>): Trend
  {
    if |values| < 3 || values[|values| - 1].0 - values[0].0 < 30.0 then TooFew(|values|)
    else
      var pts := Relative(values);
      var span := pts[|pts| - 1].0;
      var horizon := MinReal(86400.0, span * 5.0);
      var last := pts[|pts| - 1].1;
      Trend(last, Slope(pts), |values|, span, horizon, Forecast(Slope(pts), last, horizon))
  }

  method RamTrend(points: seq<Raw>) returns (r: Trend)
    ensures r == TrendOf(Sort(Filtered(points)))
  {
    var values: seq<Point> := [];
    for i := 0 to |points|
      invariant values == Filtered(points[..i])
    {
      assert points[..i + 1][..i] == points[..i];
      var (stamp, value) := points[i];
      if stamp.None? || value.None? { continue; }
      if !(0.0 <= value.value <= 100.0) { continue; }
      values := values + [(stamp.value, value.value)];
    }
    assert points[..|points|] == points;
    values := Sort(values);
    r := TrendOf(values);
  }

  /** A report is made from at least three points over thirty seconds, and its slope is the least-squares slope. */
  lemma TrendIsLeastSquares(points: seq<Raw>, a: real, b: real)
    ensures var values := Sort(Filtered(points));
            var r := TrendOf(values);
            r.Trend? ==>
              var pts := Relative(values);
              && r.n >= 3 && r.span >= 30.0
              && SumXX(pts, MeanX(pts)) > 0.0
              && Error(pts, a, b) >= Error(pts, Intercept(pts, r.slope), r.slope)
              && (OnLine(pts, a, b) ==> r.slope == b)
  {
    hide Sort, Filtered, Slope, SumXX, MeanX, MeanY, Error, Forecast, OnLine, Intercept;
    var values := Sort(Filtered(points));
    if TrendOf(values).Trend? {
      var pts := Relative(values);
      DenominatorPositive(pts, 0, |pts| - 1, MeanX(pts));
      LeastSquares(pts, a, b);
      if OnLine(pts, a, b) { LinearSlope(pts, a, b); }
    }
  }

  /** A forecast is made only for a rising trend, is when the trend from the last point meets 95, and is bounded. */
  lemma ForecastIsBounded(values: seq<Point>)
    ensures var r := TrendOf(values);
            r.Trend? && r.secondsTo95.Some? ==>
              var t := r.secondsTo95.value;
              && r.slope > 0.000001 && 0.0 <= t <= 86400.0 && t <= 5.0 * r.span
              && (r.last <= 95.0 ==> r.last + r.slope * t == 95.0)
              && (r.last > 95.0 ==> t == 0.0)
  {
    var r := TrendOf(values);
    if r.Trend? && r.slope > 0.000001 {
      var m := (95.0 - r.last) / r.slope;
      assert m * r.slope == 95.0 - r.last;
      SignOf(m, r.slope);
    }
  }

  lemma SignOf(m: real, s: real)
    requires s > 0.0
    ensures m * s > 0.0 <==> m > 0.0
    ensures m * s == 0.0 <==> m == 0.0
  {
  }

  /** What is used of the input: the pairs that are numbers with a percentage, each as often as it is given. */
  lemma {:induction false} UsedPoints(points: seq<Raw>, x: Point)
    ensures multiset(Filtered(points))[x] == if 0.0 <= x.1 <= 100.0 then multiset(points)[(Some(x.0), Some(x.1))] else 0
  {
    if points != [] {
      var init, p := points[..|points| - 1], points[|points| - 1];
      UsedPoints(init, x);
      assert points == init + [p];
    }
  }

  /** The figures of a report: of the first and the last point in time, and of the number of points. */
  lemma ReportOf(values: seq<Point>)
    requires Sorted(values)
    ensures var r, n := TrendOf(values), |values|;
            if n < 3 || values[n - 1].0 - values[0].0 < 30.0 then r == TooFew(n)
            else && r.Trend? && r.n == n && r.last == values[n - 1].1 && r.span == values[n - 1].0 - values[0].0
                 && (forall x <- values :: x.0 <= values[0].0 + r.span)
                 && r.horizon <= 86400.0 && r.horizon <= 5.0 * r.span
                 && (r.horizon == 86400.0 || r.horizon == 5.0 * r.span)
  {
    hide Slope, Forecast;
    var n := |values|;
    forall x | x in values && n >= 3 ensures x.0 <= values[n - 1].0 {
      var i :| 0 <= i < n && values[i] == x;
      assert i < n - 1 ==> Before(values[i], values[n - 1]);
    }
  }

  /** A forecast is made exactly when the trend rises and meets 95 within the horizon. */
  lemma ForecastIff(values: seq<Point>)
    ensures var r := TrendOf(values);
            r.Trend? ==> (r.secondsTo95.Some? <==> r.slope > 0.000001 && 95.0 - r.last <= r.slope * r.horizon)
  {
    hide Slope;
    var r := TrendOf(values);
    if r.Trend? && r.slope > 0.000001 {
      var m := (95.0 - r.last) / r.slope;
      assert m * r.slope == 95.0 - r.last;
      HorizonPositive(values);
      Scaled(m, r.horizon, r.slope);
    }
  }

  lemma HorizonPositive(values: seq<Point>)
    ensures TrendOf(values).Trend? ==> TrendOf(values).horizon >= 150.0
  {
    hide Slope, Forecast;
  }

  lemma Scaled(a: real, b: real, s: real)
    requires s > 0.0
    ensures a <= b <==> a * s <= s * b
  {
    if a > b { assert (a - b) * s > 0.0 by { SignOf(a - b, s); } }
    if a < b { assert (b - a) * s > 0.0 by { SignOf(b - a, s); } }
  }

  // ---------- shifting all times ----------

  function Shifted(s: seq<Point>, c: real): (r: seq<Point>)
    ensures |r| == |s|
    ensures forall i :: 0 <= i < |s| ==> r[i] == (s[i].0 + c, s[i].1)
  {
    seq(|s|, i requires 0 <= i < |s| => (s[i].0 + c, s[i].1))
  }

  lemma ShiftedSnoc(s: seq<Point>, x: Point, c: real)
    ensures Shifted(s + [x], c) == Shifted(s, c) + [(x.0 + c, x.1)]
  {
  }

  lemma {:induction false} InsertShifted(s: seq<Point>, x: Point, c: real)
    ensures Insert(Shifted(s, c), (x.0 + c, x.1)) == Shifted(Insert(s, x), c)
  {
    if s == [] || Before(s[|s| - 1], x) {
      ShiftedSnoc(s, x, c);
    } else {
      var init, y := s[..|s| - 1], s[|s| - 1];
      assert s == init + [y];
      ShiftedSnoc(init, y, c);
      assert Shifted(s, c)[..|s| - 1] == Shifted(init, c);
      InsertShifted(init, x, c);
      ShiftedSnoc(Insert(init, x), y, c);
    }
  }

  lemma SortSnoc(s: seq<Point>, x: Point)
    ensures Sort(s + [x]) == Insert(Sort(s), x)
  {
    assert (s + [x])[..|s|] == s;
  }

  lemma SortShiftedSnoc(init: seq<Point>, x: Point, c: real)
    requires Sort(Shifted(init, c)) == Shifted(Sort(init), c)
    ensures Sort(Shifted(init + [x], c)) == Shifted(Sort(init + [x]), c)
  {
    hide Sort, Insert, Shifted;
    ShiftedSnoc(init, x, c);
    SortSnoc(init, x);
    SortSnoc(Shifted(init, c), (x.0 + c, x.1));
    InsertShifted(Sort(init), x, c);
  }

  lemma {:induction false} SortShifted(s: seq<Point>, c: real)
    ensures Sort(Shifted(s, c)) == Shifted(Sort(s), c)
  {
    if s == [] {
      assert Shifted(s, c) == [];
    } else {
      hide Sort, Insert, Shifted;
      var init := s[..|s| - 1];
      assert s == init + [s[|s| - 1]];
      SortShifted(init, c);
      SortShiftedSnoc(init, s[|s| - 1], c);
    }
  }

  /** Shifting every time by the same amount changes nothing in the report. */
  lemma ShiftChangesNothing(values: seq<Point>, c: real)
    ensures TrendOf(Sort(Shifted(values, c))) == TrendOf(Sort(values))
  {
    hide Sort, Slope, Forecast;
    SortShifted(values, c);
    var s := Sort(values);
    if |s| >= 3 {
      assert Relative(Shifted(s, c)) == Relative(s);
    }
  }
}
