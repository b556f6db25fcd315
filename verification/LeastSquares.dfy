/** The least-squares slope both the clock fit and the audio detrend compute,
    in exact arithmetic. */
module LeastSquares {
  datatype Point = Point(x: real, y: real)

  function Total(f: Point -> real, ps: seq<Point>): real {
    if ps == [] then 0.0 else Total(f, ps[..|ps| - 1]) + f(ps[|ps| - 1])
  }

  function SumX(ps: seq<Point>): real {
    if ps == [] then 0.0 else SumX(ps[..|ps| - 1]) + ps[|ps| - 1].x
  }

  function SumY(ps: seq<Point>): real {
    if ps == [] then 0.0 else SumY(ps[..|ps| - 1]) + ps[|ps| - 1].y
  }

  function MeanX(ps: seq<Point>): real
    requires ps != []
  {
    SumX(ps) / |ps| as real
  }

  function MeanY(ps: seq<Point>): real
    requires ps != []
  {
    SumY(ps) / |ps| as real
  }

  /** Sum of (x - cx)^2. */
  function Spread(ps: seq<Point>, cx: real): real {
    if ps == [] then 0.0
    else
      var d := ps[|ps| - 1].x - cx;
      Spread(ps[..|ps| - 1], cx) + d * d
  }

  /** Sum of (x - cx)(y - cy). */
  function Cross(ps: seq<Point>, cx: real, cy: real): real {
    if ps == [] then 0.0
    else
      var p := ps[|ps| - 1];
      Cross(ps[..|ps| - 1], cx, cy) + (p.x - cx) * (p.y - cy)
  }

  function Clamp(value: real, bound: real): real {
    if value < -bound then -bound else if value > bound then bound else value
  }

  /** The clamped slope; zero when the points share one abscissa. */
  function Slope(ps: seq<Point>, bound: real): real
    requires ps != []
  {
    var sxx := Spread(ps, MeanX(ps));
    if sxx > 0.0 then Clamp(Cross(ps, MeanX(ps), MeanY(ps)) / sxx, bound) else 0.0
  }

  // ----- The sums, as totals ------------------------------------------------

  function XOf(p: Point): real {
    p.x
  }

  function YOf(p: Point): real {
    p.y
  }

  function SquareFrom(cx: real): Point -> real {
    (p: Point) => (p.x - cx) * (p.x - cx)
  }

  function ProductFrom(cx: real, cy: real): Point -> real {
    (p: Point) => (p.x - cx) * (p.y - cy)
  }

  lemma {:induction false} SumsAreTotals(ps: seq<Point>, cx: real, cy: real)
    ensures SumX(ps) == Total(XOf, ps) && SumY(ps) == Total(YOf, ps)
    ensures Spread(ps, cx) == Total(SquareFrom(cx), ps)
    ensures Cross(ps, cx, cy) == Total(ProductFrom(cx, cy), ps)
  {
    if ps != [] {
      SumsAreTotals(ps[..|ps| - 1], cx, cy);
    }
  }

  // ----- A line is recovered ------------------------------------------------

  predicate Fits(p: Point, slope: real, intercept: real) {
    p.y == slope * p.x + intercept
  }

  ghost predicate OnLine(ps: seq<Point>, slope: real, intercept: real) {
    forall i :: 0 <= i < |ps| ==> Fits(ps[i], slope, intercept)
  }

  lemma {:induction false} LineSums(ps: seq<Point>, slope: real, intercept: real)
    requires OnLine(ps, slope, intercept)
    ensures SumY(ps) == slope * SumX(ps) + intercept * |ps| as real
  {
    if ps != [] {
      LineSums(ps[..|ps| - 1], slope, intercept);
    }
  }

  /** The line seen from one of its own points. */
  ghost predicate Rises(ps: seq<Point>, slope: real, cx: real, cy: real) {
    forall i :: 0 <= i < |ps| ==> ps[i].y - cy == Product(slope, ps[i].x - cx)
  }

  function Product(a: real, b: real): real {
    a * b
  }

  /** One more point: both sums grow by a product of its centred coordinates. */
  lemma SumsStep(ps: seq<Point>, cx: real, cy: real) returns (d: real, rise: real)
    requires ps != []
    ensures d == ps[|ps| - 1].x - cx && rise == ps[|ps| - 1].y - cy
    ensures Cross(ps, cx, cy) == Cross(ps[..|ps| - 1], cx, cy) + d * rise
    ensures Spread(ps, cx) == Spread(ps[..|ps| - 1], cx) + d * d
  {
    d, rise := ps[|ps| - 1].x - cx, ps[|ps| - 1].y - cy;
  }

  lemma {:induction false} LineCross(ps: seq<Point>, slope: real, cx: real, cy: real)
    requires Rises(ps, slope, cx, cy)
    ensures Cross(ps, cx, cy) == Product(slope, Spread(ps, cx))
  {
    if ps != [] {
      var init := ps[..|ps| - 1];
      LineCross(init, slope, cx, cy);
      var d, rise := SumsStep(ps, cx, cy);
      LineTerm(d, rise, slope, Spread(init, cx));
    }
  }

  lemma LineTerm(d: real, rise: real, slope: real, rest: real)
    requires rise == Product(slope, d)
    ensures Product(slope, rest) + d * rise == Product(slope, rest + d * d)
  {
    calc {
      slope * (rest + d * d);
      slope * rest + slope * (d * d);
      slope * rest + (slope * d) * d;
    }
  }

  lemma MeanOfLine(ps: seq<Point>, slope: real, intercept: real)
    requires ps != [] && OnLine(ps, slope, intercept)
    ensures MeanY(ps) == slope * MeanX(ps) + intercept
  {
    LineSums(ps, slope, intercept);
    var n, sx := |ps| as real, SumX(ps);
    calc {
      (slope * sx + intercept * n) / n;
      (slope * sx) / n + intercept;
      slope * (sx / n) + intercept;
    }
  }

  lemma CrossIsProportional(ps: seq<Point>, slope: real, intercept: real) returns (sxx: real, sxy: real)
    requires ps != [] && OnLine(ps, slope, intercept)
    ensures sxx == Spread(ps, MeanX(ps)) && sxy == Cross(ps, MeanX(ps), MeanY(ps))
    ensures sxy == Product(slope, sxx)
  {
    MeanOfLine(ps, slope, intercept);
    LineCross(ps, slope, MeanX(ps), MeanY(ps));
    sxx, sxy := Spread(ps, MeanX(ps)), Cross(ps, MeanX(ps), MeanY(ps));
  }

  lemma SlopeIsRecovered(ps: seq<Point>, slope: real, intercept: real, bound: real)
    requires ps != [] && OnLine(ps, slope, intercept)
    requires -bound <= slope <= bound
    requires Spread(ps, MeanX(ps)) > 0.0
    ensures Slope(ps, bound) == slope
  {
    var sxx, sxy := CrossIsProportional(ps, slope, intercept);
  }

  /** Points on one line inside the clamp give back that line exactly, once they
      differ in abscissa. */
  lemma LineIsRecovered(ps: seq<Point>, slope: real, intercept: real, bound: real)
    requires ps != [] && OnLine(ps, slope, intercept)
    requires -bound <= slope <= bound
    requires Spread(ps, MeanX(ps)) > 0.0
    ensures Slope(ps, bound) == slope && MeanY(ps) - slope * MeanX(ps) == intercept
  {
    SlopeIsRecovered(ps, slope, intercept, bound);
    MeanOfLine(ps, slope, intercept);
  }

  lemma PositiveProduct(a: real, b: real, product: real)
    requires a > 0.0 && b > 0.0 && product == a * b
    ensures product > 0.0
  {}

  lemma Square(d: real, square: real)
    requires square == d * d
    ensures square >= 0.0 && (square == 0.0 ==> d == 0.0)
  {
    if d > 0.0 { PositiveProduct(d, d, square); }
    if d < 0.0 { PositiveProduct(-d, -d, square); }
  }

  /** Points without spread share their abscissa. */
  lemma {:induction false} NoSpread(ps: seq<Point>, cx: real)
    ensures Spread(ps, cx) >= 0.0
    ensures Spread(ps, cx) == 0.0 ==> forall i :: 0 <= i < |ps| ==> ps[i].x == cx
  {
    if ps != [] {
      var init := ps[..|ps| - 1];
      NoSpread(init, cx);
      var d := ps[|ps| - 1].x - cx;
      Square(d, d * d);
      assert forall i :: 0 <= i < |init| ==> init[i] == ps[i];
    }
  }

  method Means(ps: seq<Point>) returns (meanX: real, meanY: real)
    requires ps != []
    ensures meanX == MeanX(ps) && meanY == MeanY(ps)
  {
    var sumX, sumY := 0.0, 0.0;
    for i := 0 to |ps|
      invariant sumX == SumX(ps[..i]) && sumY == SumY(ps[..i])
    {
      assert ps[..i + 1][..i] == ps[..i];
      sumX, sumY := sumX + ps[i].x, sumY + ps[i].y;
    }
    assert ps[..|ps|] == ps;
    meanX, meanY := sumX / |ps| as real, sumY / |ps| as real;
  }

  method CentredSums(ps: seq<Point>, meanX: real, meanY: real) returns (sxx: real, sxy: real)
    ensures sxx == Spread(ps, meanX) && sxy == Cross(ps, meanX, meanY)
  {
    sxx, sxy := 0.0, 0.0;
    for i := 0 to |ps|
      invariant sxy == Cross(ps[..i], meanX, meanY) && sxx == Spread(ps[..i], meanX)
    {
      assert ps[..i + 1][..i] == ps[..i];
      var dx := ps[i].x - meanX;
      sxy := sxy + dx * (ps[i].y - meanY);
      sxx := sxx + dx * dx;
    }
    assert ps[..|ps|] == ps;
  }

  /** The two passes of the source: means, then centred sums. */
  method FitSlope(ps: seq<Point>, bound: real) returns (slope: real)
    requires ps != []
    ensures slope == Slope(ps, bound)
  {
    var meanX, meanY := Means(ps);
    var sxx, sxy := CentredSums(ps, meanX, meanY);
    slope := if sxx > 0.0 then Clamp(sxy / sxx, bound) else 0.0;
  }
}
