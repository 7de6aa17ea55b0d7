/** The least-squares spend forecast, over exact reals. */
module Forecast {
  import opened Wrappers

  datatype Point = Point(day: string, cost: Option<real>, isForecast: bool)
  datatype Line = Line(intercept: real, slope: real)

  const EPSILON: real := 1.0 / 4503599627370496.0

  /** The costs that are present; a day without one leaves no gap on the x axis. */
  function Costs(points: seq<Point>): seq<real> {
    if points == [] then []
    else if points[0].cost.Some? then [points[0].cost.value] + Costs(points[1..])
    else Costs(points[1..])
  }

  /** Row by row and in order: every cost that is present counts, whatever it is, and no other. */
  lemma {:induction false} CostsConcat(a: seq<Point>, b: seq<Point>)
    ensures Costs(a + b) == Costs(a) + Costs(b)
  {
    if a == [] {
      assert a + b == b;
    } else {
      CostsConcat(a[1..], b);
      assert (a + b)[1..] == a[1..] + b;
    }
  }

  lemma CostsOfOne(p: Point)
    ensures Costs([p]) == if p.cost.Some? then [p.cost.value] else []
  {
    assert Costs([]) == [];
  }

  // ---------------------------------------------------------------- sums

  function SumX(n: nat): real {
    if n == 0 then 0.0 else SumX(n - 1) + (n - 1) as real
  }

  function SumX2(n: nat): real {
    if n == 0 then 0.0 else SumX2(n - 1) + (n - 1) as real * (n - 1) as real
  }

  function SumY(y: seq<real>): real {
    if y == [] then 0.0 else SumY(y[..|y| - 1]) + y[|y| - 1]
  }

  function SumY2(y: seq<real>): real {
    if y == [] then 0.0 else SumY2(y[..|y| - 1]) + y[|y| - 1] * y[|y| - 1]
  }

  function SumXY(y: seq<real>): real {
    if y == [] then 0.0 else SumXY(y[..|y| - 1]) + (|y| - 1) as real * y[|y| - 1]
  }

  function Denominator(n: nat): real {
    n as real * SumX2(n) - SumX(n) * SumX(n)
  }

  datatype Sums = Sums(x: real, x2: real, y: real, xy: real, y2: real)

  function SumsOf(y: seq<real>): Sums {
    Sums(SumX(|y|), SumX2(|y|), SumY(y), SumXY(y), SumY2(y))
  }

  function LineOf(n: real, s: Sums): Line
    requires n > 0.0 && n * s.x2 - s.x * s.x > 0.0
  {
    var slope := (n * s.xy - s.x * s.y) / (n * s.x2 - s.x * s.x);
    Line((s.y - slope * s.x) / n, slope)
  }

  function Fit(y: seq<real>): Line
    requires |y| >= 2
  {
    DenominatorIsPositive(|y|);
    LineOf(|y| as real, SumsOf(y))
  }

  function At(l: Line, x: real): real {
    l.intercept + l.slope * x
  }

  function Square(r: real): real {
    r * r
  }

  /** The sum of the squared residuals of `y` against a line. */
  function Sse(y: seq<real>, l: Line): real {
    if y == [] then 0.0 else Sse(y[..|y| - 1], l) + Square(y[|y| - 1] - At(l, (|y| - 1) as real))
  }

  function Max(a: real, b: real): real {
    if a >= b then a else b
  }

  // ---------------------------------------------------------------- the forecast as the program runs it

  function ForecastDays(days: int): nat {
    if days <= 0 then 0 else if days < 7 then days else 7
  }

  function Projected(l: Line, n: nat, d: nat): real {
    Max(At(l, n as real + d as real - 1.0), 0.0)
  }

  /**
   `parse` and `format` stand for the date library, days being numbered; `days` is the period of the request.
   */
  method SpendForecast(actual: seq<Point>, days: int, parse: string -> Option<int>, format: int -> string)
      returns (points: seq<Point>)
    ensures actual <= points
    ensures
      if |Costs(actual)| >= 2 && parse(actual[|actual| - 1].day).Some? then
        var last := parse(actual[|actual| - 1].day).value;
        && |points| == |actual| + (if days >= 7 then 7 else if days >= 1 then days else 0)
        && forall d: nat | 1 <= d <= ForecastDays(days) :: points[|actual| + d - 1] ==
             Point(format(last + d), Some(Projected(Fit(Costs(actual)), |Costs(actual)|, d)), true)
      else
        points == actual
  {
    points := actual;
    var costs := Costs(actual);
    CostsAreFewer(actual);
    GuardPassesIffTwoCosts(|costs|);
    if |points| >= 2 {
      var denom := Denominator(|costs|);
      if denom > EPSILON || -denom > EPSILON {
        var line := Fit(costs);
        var last := parse(points[|points| - 1].day);
        if last.Some? {
          var k := if days < 7 then days else 7;
          var d: nat := 1;
          while d <= k
            invariant 1 <= d && (k < 1 ==> d == 1) && (k >= 1 ==> d <= k + 1)
            invariant |points| == |actual| + d - 1 && actual <= points
            invariant forall i: nat | 1 <= i < d :: points[|actual| + i - 1] ==
                        Point(format(last.value + i), Some(Projected(line, |costs|, i)), true)
          {
            points := points + [Point(format(last.value + d), Some(Projected(line, |costs|, d)), true)];
            d := d + 1;
          }
        }
      }
    }
  }

  lemma {:induction false} CostsAreFewer(points: seq<Point>)
    ensures |Costs(points)| <= |points|
  {
    if points != [] {
      CostsAreFewer(points[1..]);
    }
  }

  // ---------------------------------------------------------------- the denominator

  lemma {:induction false} ClosedForms(n: nat)
    ensures 2.0 * SumX(n) == n as real * (n as real - 1.0)
    ensures 6.0 * SumX2(n) == (n as real - 1.0) * n as real * (2.0 * n as real - 1.0)
  {
    if n > 0 {
      ClosedForms(n - 1);
      var m := (n - 1) as real;
      assert n as real == m + 1.0;
      assert 6.0 * SumX2(n) == (m - 1.0) * m * (2.0 * m - 1.0) + 6.0 * m * m;
    }
  }

  /** The denominator is n^2(n^2 - 1)/12. */
  lemma DenominatorClosedForm(n: nat)
    ensures 12.0 * Denominator(n) == (n as real * n as real) * (n as real * n as real - 1.0)
  {
    ClosedForms(n);
    var r, x, x2 := n as real, SumX(n), SumX2(n);
    assert 12.0 * (r * x2) == 2.0 * r * (6.0 * x2);
    assert 12.0 * (x * x) == 3.0 * (2.0 * x) * (2.0 * x);
  }

  lemma DenominatorIsPositive(n: nat)
    requires n >= 2
    ensures Denominator(n) >= 1.0
  {
    DenominatorClosedForm(n);
    var s := n as real * n as real;
    assert s >= 4.0;
    assert s * (s - 1.0) >= 4.0 * 3.0;
  }

  /** The guard against a vanishing denominator passes exactly when at least two days have a cost. */
  lemma GuardPassesIffTwoCosts(n: nat)
    ensures (Denominator(n) > EPSILON || -Denominator(n) > EPSILON) <==> n >= 2
  {
    if n >= 2 {
      DenominatorIsPositive(n);
    } else {
      DenominatorClosedForm(n);
    }
  }

  // ---------------------------------------------------------------- optimality

  predicate Normal(n: real, s: Sums, l: Line) {
    s.y == n * l.intercept + l.slope * s.x && s.xy == l.intercept * s.x + l.slope * s.x2
  }

  lemma FitAlgebra(n: real, s: Sums)
    requires n > 0.0 && n * s.x2 - s.x * s.x > 0.0
    ensures Normal(n, s, LineOf(n, s))
  {
    var l, d, num := LineOf(n, s), n * s.x2 - s.x * s.x, n * s.xy - s.x * s.y;
    DivideBack(num, d);
    DivideBack(s.y - l.slope * s.x, n);
    SecondNormalEquation(n, s.x, s.x2, s.y, s.xy, l.intercept, l.slope);
  }

  lemma DivideBack(u: real, v: real)
    requires v != 0.0
    ensures u / v * v == u && v * (u / v) == u
  {}

  lemma SecondNormalEquation(n: real, x: real, x2: real, sy: real, sxy: real, a: real, b: real)
    requires n > 0.0 && b * (n * x2 - x * x) == n * sxy - x * sy && n * a == sy - b * x
    ensures sxy == a * x + b * x2
  {
    assert n * (a * x) == (n * a) * x == sy * x - b * x * x;
    assert n * (b * x2) == n * sxy - x * sy + b * x * x;
    assert n * (a * x + b * x2) == n * sxy;
  }

  /** The fitted line satisfies both normal equations. */
  lemma NormalEquations(y: seq<real>)
    requires |y| >= 2
    ensures Normal(|y| as real, SumsOf(y), Fit(y))
  {
    DenominatorIsPositive(|y|);
    FitAlgebra(|y| as real, SumsOf(y));
  }

  function Expansion(n: real, s: Sums, l: Line): real {
    Quadratic(n, l.intercept, l.slope, s.y2, s.y, s.xy, s.x, s.x2)
  }

  function Quadratic(n: real, a: real, b: real, sy2: real, sy: real, sxy: real, sx: real, sx2: real): real {
    sy2 - 2.0 * a * sy - 2.0 * b * sxy + n * a * a + 2.0 * a * b * sx + b * b * sx2
  }

  function AddPoint(s: Sums, n: real, v: real): Sums {
    Sums(s.x + n, s.x2 + n * n, s.y + v, s.xy + n * v, s.y2 + v * v)
  }

  lemma ExpansionStep(n: real, s: Sums, l: Line, v: real)
    ensures Expansion(n, s, l) + Square(v - At(l, n)) == Expansion(n + 1.0, AddPoint(s, n, v), l)
  {
    ResidualExpanded(v, l.intercept, l.slope, n);
    StepExpanded(l.intercept, l.slope, n, v, s.y2, s.y, s.xy, s.x, s.x2);
  }

  lemma ResidualExpanded(v: real, a: real, b: real, k: real)
    ensures Square(v - (a + b * k)) ==
            v * v - 2.0 * a * v - 2.0 * b * (k * v) + a * a + 2.0 * a * b * k + b * b * (k * k)
  {}

  lemma StepExpanded(a: real, b: real, k: real, v: real, sy2: real, sy: real, sxy: real, sx: real, sx2: real)
    ensures
      Quadratic(k, a, b, sy2, sy, sxy, sx, sx2)
      + (v * v - 2.0 * a * v - 2.0 * b * (k * v) + a * a + 2.0 * a * b * k + b * b * (k * k))
      == Quadratic(k + 1.0, a, b, sy2 + v * v, sy + v, sxy + k * v, sx + k, sx2 + k * k)
  {}

  lemma {:induction false} SseExpanded(y: seq<real>, l: Line)
    ensures Sse(y, l) == Expansion(|y| as real, SumsOf(y), l)
  {
    if y != [] {
      var front, k, v := y[..|y| - 1], (|y| - 1) as real, y[|y| - 1];
      SseExpanded(front, l);
      ExpansionStep(k, SumsOf(front), l, v);
      assert SumsOf(y) == AddPoint(SumsOf(front), k, v);
      assert |y| as real == k + 1.0;
    }
  }

  /** How much worse than the fitted line a line is whose coefficients differ by `p` and `q`. */
  function Gap(n: real, x: real, x2: real, p: real, q: real): real {
    n * p * p + 2.0 * p * q * x + q * q * x2
  }

  lemma GapAlgebra(n: real, s: Sums, l: Line, p: real, q: real)
    requires Normal(n, s, l)
    ensures Expansion(n, s, Line(l.intercept + p, l.slope + q)) - Expansion(n, s, l) == Gap(n, s.x, s.x2, p, q)
  {
    var a, b := l.intercept, l.slope;
    assert 2.0 * p * s.y == 2.0 * p * n * a + 2.0 * p * b * s.x;
    assert 2.0 * q * s.xy == 2.0 * q * a * s.x + 2.0 * q * b * s.x2;
  }

  lemma GapIsPositive(n: real, x: real, x2: real, p: real, q: real)
    requires n > 0.0 && n * x2 - x * x > 0.0
    ensures Gap(n, x, x2, p, q) >= 0.0
    ensures Gap(n, x, x2, p, q) == 0.0 ==> p == 0.0 && q == 0.0
  {
    var u, d := n * p + q * x, n * x2 - x * x;
    CompleteTheSquare(n, x, x2, p, q);
    SquareIsPositive(u);
    ScaledSquare(d, q);
    FactorOfSum(n, Gap(n, x, x2, p, q), Square(u), d * Square(q));
    if q == 0.0 && p != 0.0 {
      assert u == n * p && u != 0.0;
    }
  }

  lemma CompleteTheSquare(n: real, x: real, x2: real, p: real, q: real)
    ensures n * Gap(n, x, x2, p, q) == Square(n * p + q * x) + (n * x2 - x * x) * Square(q)
  {}

  lemma ScaledSquare(d: real, q: real)
    requires d > 0.0
    ensures d * Square(q) >= 0.0 && (d * Square(q) == 0.0 ==> q == 0.0)
  {
    SquareIsPositive(q);
    if q != 0.0 {
      ProductOfPositives(d, Square(q), d * Square(q));
    }
  }

  lemma ProductOfPositives(u: real, v: real, w: real)
    requires u > 0.0 && v > 0.0 && w == u * v
    ensures w > 0.0
  {}

  lemma FactorOfSum(n: real, g: real, a: real, b: real)
    requires n > 0.0 && a >= 0.0 && b >= 0.0 && n * g == a + b
    ensures g >= 0.0 && (g == 0.0 ==> a == 0.0 && b == 0.0)
  {}

  lemma SquareIsPositive(r: real)
    ensures Square(r) >= 0.0 && (r != 0.0 ==> Square(r) > 0.0)
  {
    if r > 0.0 {
      ProductOfPositives(r, r, Square(r));
    } else if r < 0.0 {
      ProductOfPositives(-r, -r, Square(r));
    }
  }

  /** The fitted line is the one and only line with the least sum of squared residuals. */
  lemma FitIsLeastSquares(y: seq<real>, l: Line)
    requires |y| >= 2
    ensures Sse(y, Fit(y)) <= Sse(y, l)
    ensures Sse(y, Fit(y)) == Sse(y, l) ==> l == Fit(y)
  {
    NormalEquations(y);
    DenominatorIsPositive(|y|);
    SseGap(y, Fit(y), l, l.intercept - Fit(y).intercept, l.slope - Fit(y).slope);
    GapIsPositive(|y| as real, SumX(|y|), SumX2(|y|), l.intercept - Fit(y).intercept, l.slope - Fit(y).slope);
  }

  lemma SseGap(y: seq<real>, f: Line, l: Line, p: real, q: real)
    requires Normal(|y| as real, SumsOf(y), f) && p == l.intercept - f.intercept && q == l.slope - f.slope
    ensures Sse(y, l) - Sse(y, f) == Gap(|y| as real, SumX(|y|), SumX2(|y|), p, q)
  {
    SseExpanded(y, l);
    SseExpanded(y, f);
    GapAlgebra(|y| as real, SumsOf(y), f, p, q);
    assert l == Line(f.intercept + p, f.slope + q);
  }

  predicate OnLine(y: seq<real>, l: Line) {
    forall i | 0 <= i < |y| :: y[i] == At(l, i as real)
  }

  lemma {:induction false} NoResidual(y: seq<real>, l: Line)
    requires OnLine(y, l)
    ensures Sse(y, l) == 0.0
  {
    if y != [] {
      NoResidual(y[..|y| - 1], l);
    }
  }

  lemma {:induction false} SseNotNegative(y: seq<real>, l: Line)
    ensures Sse(y, l) >= 0.0
  {
    if y != [] {
      SseNotNegative(y[..|y| - 1], l);
      SquareIsPositive(y[|y| - 1] - At(l, (|y| - 1) as real));
    }
  }

  /** A history that lies on a line is fitted by that very line, so its forecast continues it, clamped at zero. */
  lemma LinearHistoryIsContinued(y: seq<real>, l: Line)
    requires |y| >= 2 && OnLine(y, l)
    ensures Fit(y) == l
    ensures forall d: nat :: Projected(Fit(y), |y|, d) == Max(At(l, |y| as real + d as real - 1.0), 0.0)
  {
    NoResidual(y, l);
    SseNotNegative(y, Fit(y));
    FitIsLeastSquares(y, l);
  }

  // ---------------------------------------------------------------- lines over the calendar

  /**
   The query groups spending by day, so a day without any has no row, and the regression counts rows where the
   forecast counts days. `t` holds the days that have a cost, and `last` is the day of the last row.
   */
  predicate Dated(t: seq<int>, last: int) {
    (forall i, j | 0 <= i < j < |t| :: t[i] < t[j]) && forall i | 0 <= i < |t| :: t[i] <= last
  }

  predicate OnCalendarLine(t: seq<int>, y: seq<real>, c: Line) {
    |t| == |y| && forall i | 0 <= i < |t| :: y[i] == At(c, t[i] as real)
  }

  /** How many of the days after `t[i]`, up to the last one, have no cost. */
  function Missing(t: seq<int>, last: int, i: nat): int
    requires i < |t|
  {
    last - t[i] - (|t| - 1 - i)
  }

  predicate NoneMissing(t: seq<int>, last: int) {
    forall i: nat | i < |t| :: Missing(t, last, i) == 0
  }

  lemma {:induction false} MissingIsNatural(t: seq<int>, last: int, i: nat)
    requires Dated(t, last) && i < |t|
    ensures Missing(t, last, i) >= 0
    decreases |t| - i
  {
    if i + 1 < |t| {
      MissingIsNatural(t, last, i + 1);
    }
  }

  /** The calendar's line, read over positions in such a way that the next position is the next day. */
  function OverPositions(c: Line, n: nat, last: int): Line {
    Line(c.intercept + c.slope * (last + 1 - n) as real, c.slope)
  }

  /** The fitted line gives the `d`-th day to come what the calendar's line gives it. */
  predicate FollowsAt(y: seq<real>, c: Line, last: int, d: nat)
    requires |y| >= 2
  {
    At(Fit(y), |y| as real + d as real - 1.0) == At(c, (last + d) as real)
  }

  lemma PositionsAreDays(c: Line, n: nat, last: int, d: nat)
    ensures At(OverPositions(c, n, last), n as real + d as real - 1.0) == At(c, (last + d) as real)
  {
    var u, v := (last + 1 - n) as real, n as real + d as real - 1.0;
    assert (last + d) as real == u + v;
    assert c.slope * u + c.slope * v == c.slope * (u + v);
  }

  lemma ResidualIsMissing(t: seq<int>, y: seq<real>, c: Line, last: int, i: nat)
    requires OnCalendarLine(t, y, c) && i < |t|
    ensures y[i] == At(OverPositions(c, |t|, last), i as real) - c.slope * Missing(t, last, i) as real
  {
    var u, v, w := (last + 1 - |t|) as real, i as real, Missing(t, last, i) as real;
    assert t[i] as real == u + v - w;
    assert c.slope * (u + v - w) == c.slope * u + c.slope * v - c.slope * w;
  }

  lemma TwoPointsFixALine(f: Line, g: Line, u: real, v: real)
    requires u != v && At(f, u) == At(g, u) && At(f, v) == At(g, v)
    ensures f == g
  {
    assert (f.slope - g.slope) * (u - v) == 0.0;
  }

  function TotalMissing(t: seq<int>, last: int, n: nat): int
    requires n <= |t|
  {
    if n == 0 then 0 else TotalMissing(t, last, n - 1) + Missing(t, last, n - 1)
  }

  lemma {:induction false} TotalIsZeroIff(t: seq<int>, last: int, n: nat)
    requires Dated(t, last) && n <= |t|
    ensures TotalMissing(t, last, n) >= 0
    ensures TotalMissing(t, last, n) == 0 <==> forall i: nat | i < n :: Missing(t, last, i) == 0
  {
    if n > 0 {
      TotalIsZeroIff(t, last, n - 1);
      MissingIsNatural(t, last, n - 1);
    }
  }

  function LineSum(l: Line, n: nat): real {
    n as real * l.intercept + l.slope * SumX(n)
  }

  lemma {:induction false} ResidualsAddUp(t: seq<int>, y: seq<real>, c: Line, last: int, n: nat)
    requires OnCalendarLine(t, y, c) && n <= |t|
    ensures
      SumY(y[..n]) == LineSum(OverPositions(c, |t|, last), n) - c.slope * TotalMissing(t, last, n) as real
  {
    if n > 0 {
      var l := OverPositions(c, |t|, last);
      ResidualsAddUp(t, y, c, last, n - 1);
      ResidualIsMissing(t, y, c, last, n - 1);
      assert y[..n][..n - 1] == y[..n - 1];
      AddResidual(l.intercept, c.slope, (n - 1) as real, SumX(n - 1), TotalMissing(t, last, n - 1) as real,
                  Missing(t, last, n - 1) as real);
    }
  }

  lemma AddResidual(a: real, b: real, n: real, x: real, total: real, missing: real)
    ensures n * a + b * x - b * total + (a + b * n - b * missing) == (n + 1.0) * a + b * (x + n) - b * (total + missing)
  {}

  /** A line over positions that gives two days to come what the calendar's line gives them is the calendar's. */
  lemma TwoDaysFixTheLine(f: Line, c: Line, n: nat, last: int, p: nat, q: nat)
    requires p != q
    requires At(f, n as real + p as real - 1.0) == At(c, (last + p) as real)
    requires At(f, n as real + q as real - 1.0) == At(c, (last + q) as real)
    ensures f == OverPositions(c, n, last)
  {
    PositionsAreDays(c, n, last, p);
    PositionsAreDays(c, n, last, q);
    TwoPointsFixALine(f, OverPositions(c, n, last), n as real + p as real - 1.0, n as real + q as real - 1.0);
  }

  /** When the calendar's line meets the normal equations, its residuals, all of one sign, add up to zero. */
  lemma NothingMissingInSum(t: seq<int>, y: seq<real>, c: Line, last: int)
    requires OnCalendarLine(t, y, c) && Normal(|y| as real, SumsOf(y), OverPositions(c, |y|, last))
    ensures c.slope == 0.0 || TotalMissing(t, last, |y|) == 0
  {
    ResidualsAddUp(t, y, c, last, |y|);
    assert y[..|y|] == y;
    assert SumY(y) == LineSum(OverPositions(c, |y|, last), |y|);
    ZeroProduct(c.slope, TotalMissing(t, last, |y|) as real);
  }

  lemma ZeroProduct(u: real, v: real)
    requires u * v == 0.0
    ensures u == 0.0 || v == 0.0
  {}

  /** A fitted line that is right on two days to come is the calendar's, so that is level or no day is missing. */
  lemma FollowingMeansNoneMissing(t: seq<int>, y: seq<real>, c: Line, last: int, p: nat, q: nat)
    requires |y| >= 2 && Dated(t, last) && OnCalendarLine(t, y, c)
    requires p != q && FollowsAt(y, c, last, p) && FollowsAt(y, c, last, q)
    ensures c.slope == 0.0 || NoneMissing(t, last)
  {
    TwoDaysFixTheLine(Fit(y), c, |y|, last, p, q);
    NormalEquations(y);
    NothingMissingInSum(t, y, c, last);
    TotalIsZeroIff(t, last, |y|);
  }

  lemma NoneMissingMeansFollowing(t: seq<int>, y: seq<real>, c: Line, last: int, d: nat)
    requires |y| >= 2 && Dated(t, last) && OnCalendarLine(t, y, c)
    requires c.slope == 0.0 || NoneMissing(t, last)
    ensures FollowsAt(y, c, last, d)
  {
    var l := OverPositions(c, |y|, last);
    forall i: nat | i < |y| ensures y[i] == At(l, i as real) {
      ResidualIsMissing(t, y, c, last, i);
    }
    LinearHistoryIsContinued(y, l);
    PositionsAreDays(c, |y|, last, d);
  }

  lemma CalendarLineIsContinuedIff(t: seq<int>, y: seq<real>, c: Line, last: int, k: nat, p: nat, q: nat)
    requires |y| >= 2 && Dated(t, last) && OnCalendarLine(t, y, c)
    requires 1 <= p < q <= k && At(c, (last + p) as real) > 0.0 && At(c, (last + q) as real) > 0.0
    ensures
      (forall d: nat | 1 <= d <= k :: Projected(Fit(y), |y|, d) == Max(At(c, (last + d) as real), 0.0))
      <==> c.slope == 0.0 || NoneMissing(t, last)
  {
    if c.slope == 0.0 || NoneMissing(t, last) {
      forall d: nat | 1 <= d <= k ensures Projected(Fit(y), |y|, d) == Max(At(c, (last + d) as real), 0.0) {
        NoneMissingMeansFollowing(t, y, c, last, d);
      }
    } else if forall d: nat | 1 <= d <= k :: Projected(Fit(y), |y|, d) == Max(At(c, (last + d) as real), 0.0) {
      assert Projected(Fit(y), |y|, p) == Max(At(c, (last + p) as real), 0.0);
      assert Projected(Fit(y), |y|, q) == Max(At(c, (last + q) as real), 0.0);
      FollowingMeansNoneMissing(t, y, c, last, p, q);
    }
  }

  // ---------------------------------------------------------------- the same of the rows

  function DayOf(p: Point, parse: string -> Option<int>): int {
    parse(p.day).GetOr(0)
  }

  /** What the query answers: readable days, in their order and without repetition. */
  predicate DatedRows(points: seq<Point>, parse: string -> Option<int>) {
    && (forall i | 0 <= i < |points| :: parse(points[i].day).Some?)
    && forall i, j | 0 <= i < j < |points| :: DayOf(points[i], parse) < DayOf(points[j], parse)
  }

  predicate RowsOnLine(points: seq<Point>, parse: string -> Option<int>, c: Line) {
    forall i | 0 <= i < |points| && points[i].cost.Some? ::
      points[i].cost.value == At(c, DayOf(points[i], parse) as real)
  }

  /** The days of the rows that have a cost. */
  function CostDays(points: seq<Point>, parse: string -> Option<int>): seq<int> {
    if points == [] then []
    else if points[0].cost.Some? then [DayOf(points[0], parse)] + CostDays(points[1..], parse)
    else CostDays(points[1..], parse)
  }

  /** A day counts as one with a cost exactly if one of its rows has one. */
  lemma {:induction false} CostDaysMembers(points: seq<Point>, parse: string -> Option<int>, day: int)
    ensures
      day in CostDays(points, parse)
      <==> exists i | 0 <= i < |points| :: points[i].cost.Some? && DayOf(points[i], parse) == day
  {
    if points != [] {
      CostDaysMembers(points[1..], parse, day);
      assert points == [points[0]] + points[1..];
    }
  }

  lemma {:induction false} CostDaysAreDated(points: seq<Point>, parse: string -> Option<int>)
    requires DatedRows(points, parse) && points != []
    ensures Dated(CostDays(points, parse), DayOf(points[|points| - 1], parse))
    ensures forall k | 0 <= k < |CostDays(points, parse)| :: DayOf(points[0], parse) <= CostDays(points, parse)[k]
  {
    var rest := points[1..];
    if rest != [] {
      assert forall i | 0 <= i < |rest| :: rest[i] == points[i + 1];
      CostDaysAreDated(rest, parse);
      assert rest[|rest| - 1] == points[|points| - 1];
    }
  }

  lemma {:induction false} CostsAreOnLine(points: seq<Point>, parse: string -> Option<int>, c: Line)
    requires RowsOnLine(points, parse, c)
    ensures OnCalendarLine(CostDays(points, parse), Costs(points), c)
  {
    if points != [] {
      assert forall i | 0 <= i < |points[1..]| :: points[1..][i] == points[i + 1];
      CostsAreOnLine(points[1..], parse, c);
    }
  }

  /**
   Costs that lie on a line over the calendar are forecast as that line continued, clamped at zero, if and only if the
   line is level or every day from the first one with a cost to that of the last row has a cost. It takes two days of
   the forecast on which the line is above zero to tell: clamped, or on a single day, a wrong line may look right.
   */
  lemma ForecastFollowsTheCalendarIff(actual: seq<Point>, parse: string -> Option<int>, c: Line, k: nat, p: nat, q: nat)
    requires DatedRows(actual, parse) && RowsOnLine(actual, parse, c) && |Costs(actual)| >= 2
    requires actual != [] && 1 <= p < q <= k
    requires
      var last := DayOf(actual[|actual| - 1], parse);
      At(c, (last + p) as real) > 0.0 && At(c, (last + q) as real) > 0.0
    ensures
      var y, t, last := Costs(actual), CostDays(actual, parse), DayOf(actual[|actual| - 1], parse);
      (forall d: nat | 1 <= d <= k :: Projected(Fit(y), |y|, d) == Max(At(c, (last + d) as real), 0.0))
      <==> c.slope == 0.0 || NoneMissing(t, last)
  {
    CostDaysAreDated(actual, parse);
    CostsAreOnLine(actual, parse, c);
    CalendarLineIsContinuedIff(CostDays(actual, parse), Costs(actual), c, DayOf(actual[|actual| - 1], parse), k, p, q);
  }

  lemma FitOfTwo(y: seq<real>, a: real, b: real)
    requires |y| == 2 && y[0] == a && y[1] == a + b
    ensures Fit(y) == Line(a, b)
  {
    LinearHistoryIsContinued(y, Line(a, b));
  }

  /** The costs 0 and 2 of days 0 and 2: the line over the calendar gives the next day 3, the forecast 4. */
  lemma MissingDayBendsTheForecast(t: seq<int>, y: seq<real>)
    requires t == [0, 2] && y == [0.0, 2.0]
    ensures Dated(t, 2) && OnCalendarLine(t, y, Line(0.0, 1.0)) && At(Line(0.0, 1.0), 3.0) == 3.0
    ensures Projected(Fit(y), 2, 1) == 4.0
  {
    FitOfTwo(y, 0.0, 2.0);
  }

  /** With a last row for day 3 that has no cost, the same forecast is right for day 4 and wrong for day 5. */
  lemma OneRightDayProvesNothing(t: seq<int>, y: seq<real>)
    requires t == [0, 2] && y == [0.0, 2.0]
    ensures Dated(t, 3) && OnCalendarLine(t, y, Line(0.0, 1.0)) && !NoneMissing(t, 3)
    ensures Projected(Fit(y), 2, 1) == At(Line(0.0, 1.0), 4.0) && Projected(Fit(y), 2, 2) != At(Line(0.0, 1.0), 5.0)
  {
    FitOfTwo(y, 0.0, 2.0);
    assert Missing(t, 3, 0) == 2;
  }

  lemma SteepLineIsClamped(l: Line, d: nat)
    requires l == Line(10.0, -10.0) && d >= 1
    ensures Projected(l, 2, d) == 0.0
  {}

  lemma GentleLineIsClamped(c: Line, d: nat)
    requires c == Line(10.0, -1.0) && d >= 1
    ensures Max(At(c, (10 + d) as real), 0.0) == 0.0
  {}

  lemma DaysAreMissing(t: seq<int>, y: seq<real>, c: Line)
    requires t == [0, 10] && y == [10.0, 0.0] && c == Line(10.0, -1.0)
    ensures Dated(t, 10) && OnCalendarLine(t, y, c) && !NoneMissing(t, 10)
  {
    assert Missing(t, 10, 0) == 9;
  }

  lemma SteepFallIsClamped(y: seq<real>, d: nat)
    requires y == [10.0, 0.0] && d >= 1
    ensures Projected(Fit(y), 2, d) == 0.0
  {
    FitOfTwo(y, 10.0, -10.0);
    SteepLineIsClamped(Fit(y), d);
  }

  /** Falling costs 10 and 0 of days 0 and 10: both lines are clamped, so the forecast is right in spite of the gap. */
  lemma ClampingHidesTheBend(t: seq<int>, y: seq<real>, c: Line, d: nat)
    requires t == [0, 10] && y == [10.0, 0.0] && c == Line(10.0, -1.0) && d >= 1
    ensures Dated(t, 10) && OnCalendarLine(t, y, c) && !NoneMissing(t, 10)
    ensures Projected(Fit(y), 2, d) == Max(At(c, (10 + d) as real), 0.0)
  {
    DaysAreMissing(t, y, c);
    SteepFallIsClamped(y, d);
    GentleLineIsClamped(c, d);
  }
}
