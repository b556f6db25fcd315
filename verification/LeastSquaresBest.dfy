/** The slope is the best there is: no line within the clamp misses the points by
    less, squared and summed, than the one the slope gives. */
module LeastSquaresBest {
  import opened LeastSquares

  // ----- Totals -------------------------------------------------------------

  lemma {:induction false} TotalSplits(f: Point -> real, g: Point -> real, h: Point -> real, k: Point -> real,
                                       ps: seq<Point>)
    requires forall p :: f(p) == g(p) - 2.0 * h(p) + k(p)
    ensures Total(f, ps) == Total(g, ps) - 2.0 * Total(h, ps) + Total(k, ps)
  {
    if ps != [] { TotalSplits(f, g, h, k, ps[..|ps| - 1]); }
  }

  lemma {:induction false} TotalMixes(f: Point -> real, a: real, g: Point -> real, b: real, h: Point -> real,
                                      ps: seq<Point>)
    requires forall p :: f(p) == a * g(p) + b * h(p)
    ensures Total(f, ps) == a * Total(g, ps) + b * Total(h, ps)
  {
    if ps != [] {
      var init, last := ps[..|ps| - 1], ps[|ps| - 1];
      TotalMixes(f, a, g, b, h, init);
      Distribute(a, Total(g, init), g(last));
      Distribute(b, Total(h, init), h(last));
    }
  }

  lemma Distribute(a: real, x: real, y: real)
    ensures a * (x + y) == a * x + a * y
  {}

  // ----- Misses -------------------------------------------------------------

  /** How far the point lies over the line. */
  function Over(p: Point, slope: real, intercept: real): real {
    p.y - (slope * p.x + intercept)
  }

  /** The squared misses of the line from the points, summed. */
  function Miss(ps: seq<Point>, slope: real, intercept: real): real {
    Total((p: Point) => Over(p, slope, intercept) * Over(p, slope, intercept), ps)
  }

  /** The squared distances of two lines at the points, summed. */
  function Apart(ps: seq<Point>, slope: real, intercept: real, other: real, through: real): real {
    Total((p: Point) => Lead(p, slope, intercept, other, through) * Lead(p, slope, intercept, other, through), ps)
  }

  /** How far one line leads the other at the point. */
  function Lead(p: Point, slope: real, intercept: real, other: real, through: real): real {
    (slope * p.x + intercept) - (other * p.x + through)
  }

  lemma SquareOfDifference(r: real, d: real)
    ensures (r - d) * (r - d) == r * r - 2.0 * (r * d) + d * d
  {}

  /** The misses of any line, by those of another one. */
  lemma MissSplits(ps: seq<Point>, t: real, j: real, s: real, i: real) returns (cross: real)
    ensures cross == Total((p: Point) => Over(p, s, i) * Lead(p, t, j, s, i), ps)
    ensures Miss(ps, t, j) == Miss(ps, s, i) - 2.0 * cross + Apart(ps, t, j, s, i)
  {
    var f := (p: Point) => Over(p, t, j) * Over(p, t, j);
    var g := (p: Point) => Over(p, s, i) * Over(p, s, i);
    var h := (p: Point) => Over(p, s, i) * Lead(p, t, j, s, i);
    var k := (p: Point) => Lead(p, t, j, s, i) * Lead(p, t, j, s, i);
    forall p: Point ensures f(p) == g(p) - 2.0 * h(p) + k(p) {
      SquareOfDifference(Over(p, s, i), Lead(p, t, j, s, i));
      assert Over(p, t, j) == Over(p, s, i) - Lead(p, t, j, s, i);
    }
    TotalSplits(f, g, h, k, ps);
    cross := Total(h, ps);
  }

  // ----- At the balance point -----------------------------------------------

  lemma {:induction false} OffsBalance(ps: seq<Point>, cx: real, cy: real)
    ensures Total((p: Point) => p.x - cx, ps) == SumX(ps) - |ps| as real * cx
    ensures Total((p: Point) => p.y - cy, ps) == SumY(ps) - |ps| as real * cy
  {
    if ps != [] {
      OffsBalance(ps[..|ps| - 1], cx, cy);
      Distribute(cx, |ps[..|ps| - 1]| as real, 1.0);
      Distribute(cy, |ps[..|ps| - 1]| as real, 1.0);
    }
  }

  /** The points balance about the centre. */
  predicate Balances(ps: seq<Point>, cx: real, cy: real) {
    Total((p: Point) => p.x - cx, ps) == 0.0 && Total((p: Point) => p.y - cy, ps) == 0.0
  }

  lemma OverSeen(p: Point, s: real, i: real, cx: real, cy: real)
    requires i == cy - s * cx
    ensures Over(p, s, i) == 1.0 * (p.y - cy) + (-s) * (p.x - cx)
  {
    assert s * (p.x - cx) == s * p.x - s * cx;
  }

  /** A line through the balance point misses nothing on balance. */
  lemma OversBalance(ps: seq<Point>, s: real, i: real, cx: real, cy: real)
    requires Balances(ps, cx, cy) && i == cy - s * cx
    ensures Total((p: Point) => Over(p, s, i), ps) == 0.0
  {
    var f, g, h := (p: Point) => Over(p, s, i), (p: Point) => p.y - cy, (p: Point) => p.x - cx;
    forall p: Point ensures f(p) == 1.0 * g(p) + (-s) * h(p) { OverSeen(p, s, i, cx, cy); }
    TotalMixes(f, 1.0, g, -s, h, ps);
  }

  lemma OverTimes(p: Point, s: real, i: real, cx: real, cy: real)
    requires i == cy - s * cx
    ensures Over(p, s, i) * (p.x - cx) == 1.0 * ProductFrom(cx, cy)(p) + (-s) * SquareFrom(cx)(p)
  {
    OverSeen(p, s, i, cx, cy);
    Expand(Over(p, s, i), p.x - cx, p.y - cy, s);
  }

  lemma Expand(over: real, u: real, v: real, s: real)
    requires over == 1.0 * v + (-s) * u
    ensures over * u == 1.0 * (u * v) + (-s) * (u * u)
  {}

  lemma LeanMixes(ps: seq<Point>, s: real, i: real, cx: real, cy: real)
    requires i == cy - s * cx
    ensures Total((p: Point) => Over(p, s, i) * (p.x - cx), ps)
            == 1.0 * Total(ProductFrom(cx, cy), ps) + (-s) * Total(SquareFrom(cx), ps)
  {
    var f := (p: Point) => Over(p, s, i) * (p.x - cx);
    forall p: Point
      ensures f(p) == 1.0 * ProductFrom(cx, cy)(p) + (-s) * SquareFrom(cx)(p)
    {
      OverTimes(p, s, i, cx, cy);
    }
    TotalMixes(f, 1.0, ProductFrom(cx, cy), -s, SquareFrom(cx), ps);
  }

  /** And leans on the points by what its slope leaves of their cross sum. */
  lemma OversLean(ps: seq<Point>, s: real, i: real, cx: real, cy: real) returns (lean: real)
    requires i == cy - s * cx
    ensures lean == Total((p: Point) => Over(p, s, i) * (p.x - cx), ps)
    ensures lean == Cross(ps, cx, cy) - s * Spread(ps, cx)
  {
    lean := Total((p: Point) => Over(p, s, i) * (p.x - cx), ps);
    LeanMixes(ps, s, i, cx, cy);
    SumsAreTotals(ps, cx, cy);
  }

  lemma LeadSeen(p: Point, t: real, j: real, s: real, i: real, cx: real)
    ensures Lead(p, t, j, s, i) == (t - s) * (p.x - cx) + ((t - s) * cx + (j - i))
  {
    assert (t - s) * (p.x - cx) == (t - s) * p.x - (t - s) * cx;
    assert (t - s) * p.x == t * p.x - s * p.x;
  }

  lemma OverTimesLead(p: Point, t: real, j: real, s: real, i: real, cx: real, a: real, b: real)
    requires a == t - s && b == (t - s) * cx + (j - i)
    ensures Over(p, s, i) * Lead(p, t, j, s, i) == a * (Over(p, s, i) * (p.x - cx)) + b * Over(p, s, i)
  {
    LeadSeen(p, t, j, s, i, cx);
    Regroup(Over(p, s, i), a, p.x - cx, b);
  }

  lemma Regroup(r: real, a: real, u: real, b: real)
    ensures r * (a * u + b) == a * (r * u) + b * r
  {}

  lemma CrossMixes(ps: seq<Point>, t: real, j: real, s: real, i: real, cx: real) returns (a: real, b: real)
    ensures a == t - s
    ensures Total((p: Point) => Over(p, s, i) * Lead(p, t, j, s, i), ps)
            == a * Total((p: Point) => Over(p, s, i) * (p.x - cx), ps) + b * Total((p: Point) => Over(p, s, i), ps)
  {
    a, b := t - s, (t - s) * cx + (j - i);
    var f := (p: Point) => Over(p, s, i) * Lead(p, t, j, s, i);
    var g := (p: Point) => Over(p, s, i) * (p.x - cx);
    var h := (p: Point) => Over(p, s, i);
    forall p: Point ensures f(p) == a * g(p) + b * h(p) { OverTimesLead(p, t, j, s, i, cx, a, b); }
    TotalMixes(f, a, g, b, h, ps);
  }

  /** So the lead of any other line weighs on the fitted one's misses by its slope
      alone. */
  lemma CrossIs(ps: seq<Point>, t: real, j: real, s: real, i: real, cx: real, cy: real) returns (lean: real)
    requires Balances(ps, cx, cy) && i == cy - s * cx
    ensures lean == Cross(ps, cx, cy) - s * Spread(ps, cx)
    ensures Total((p: Point) => Over(p, s, i) * Lead(p, t, j, s, i), ps) == (t - s) * lean
  {
    var a, b := CrossMixes(ps, t, j, s, i, cx);
    lean := OversLean(ps, s, i, cx, cy);
    OversBalance(ps, s, i, cx, cy);
  }

  // ----- The best line ------------------------------------------------------

  /** No slope within the clamp leans the other way. */
  lemma ClampLeans(sxy: real, sxx: real, bound: real, t: real) returns (s: real)
    requires sxx > 0.0 && bound >= 0.0 && -bound <= t <= bound
    ensures s == Clamp(sxy / sxx, bound) && -bound <= s <= bound
    ensures (t - s) * (sxy - s * sxx) <= 0.0
  {
    var q := sxy / sxx;
    s := Clamp(q, bound);
    assert sxy - s * sxx == (q - s) * sxx;
    var a, c := t - s, (q - s) * sxx;
    if q > bound {
      PositiveProduct(q - s, sxx, c);
      if a < 0.0 { PositiveProduct(-a, c, -a * c); }
    } else if q < -bound {
      PositiveProduct(s - q, sxx, -c);
      if a > 0.0 { PositiveProduct(a, -c, a * -c); }
    }
  }

  lemma {:induction false} NoCross(ps: seq<Point>, cx: real, cy: real)
    requires Spread(ps, cx) == 0.0
    ensures Cross(ps, cx, cy) == 0.0
  {
    if ps != [] {
      var init, d := ps[..|ps| - 1], ps[|ps| - 1].x - cx;
      NoSpread(init, cx);
      Square(d, d * d);
      NoCross(init, cx, cy);
    }
  }

  lemma SlopeLeans(ps: seq<Point>, bound: real, t: real, s: real)
    requires ps != [] && bound >= 0.0 && -bound <= t <= bound && s == Slope(ps, bound)
    ensures (t - s) * (Cross(ps, MeanX(ps), MeanY(ps)) - s * Spread(ps, MeanX(ps))) <= 0.0
  {
    var sxx, sxy := Spread(ps, MeanX(ps)), Cross(ps, MeanX(ps), MeanY(ps));
    NoSpread(ps, MeanX(ps));
    if sxx > 0.0 {
      var c := ClampLeans(sxy, sxx, bound, t);
    } else {
      NoCross(ps, MeanX(ps), MeanY(ps));
      NoLean(t, s, sxy, sxx);
    }
  }

  lemma NoLean(t: real, s: real, sxy: real, sxx: real)
    requires s == 0.0 && sxy == 0.0 && sxx == 0.0
    ensures (t - s) * (sxy - s * sxx) == 0.0
  {}

  /** Whatever line within the clamp one tries, it misses the points by at least as much
      more than the fitted one as the two lines are apart at the points, squared and
      summed: so the fitted line is the best, and at the points the only one. */
  lemma SlopeIsBest(ps: seq<Point>, bound: real, t: real, j: real, s: real, i: real)
    requires ps != [] && bound >= 0.0 && -bound <= t <= bound
    requires s == Slope(ps, bound) && i == MeanY(ps) - s * MeanX(ps)
    ensures Miss(ps, t, j) >= Miss(ps, s, i) + Apart(ps, t, j, s, i)
  {
    SlopeLeans(ps, bound, t, s);
    MeansAreBest(ps, t, j, s, i);
  }

  lemma MeansAreBest(ps: seq<Point>, t: real, j: real, s: real, i: real)
    requires ps != [] && i == MeanY(ps) - s * MeanX(ps)
    requires (t - s) * (Cross(ps, MeanX(ps), MeanY(ps)) - s * Spread(ps, MeanX(ps))) <= 0.0
    ensures Miss(ps, t, j) >= Miss(ps, s, i) + Apart(ps, t, j, s, i)
  {
    MeansBalance(ps);
    LeaningIsBest(ps, t, j, s, i, MeanX(ps), MeanY(ps));
  }

  lemma LeaningIsBest(ps: seq<Point>, t: real, j: real, s: real, i: real, cx: real, cy: real)
    requires Balances(ps, cx, cy) && i == cy - s * cx
    requires (t - s) * (Cross(ps, cx, cy) - s * Spread(ps, cx)) <= 0.0
    ensures Miss(ps, t, j) >= Miss(ps, s, i) + Apart(ps, t, j, s, i)
  {
    var cross := MissSplits(ps, t, j, s, i);
    var lean := CrossIs(ps, t, j, s, i, cx, cy);
  }

  lemma MeansBalance(ps: seq<Point>)
    requires ps != []
    ensures Balances(ps, MeanX(ps), MeanY(ps))
  {
    OffsBalance(ps, MeanX(ps), MeanY(ps));
    Undivided(SumX(ps), |ps| as real);
    Undivided(SumY(ps), |ps| as real);
  }

  lemma Undivided(sum: real, n: real)
    requires n != 0.0
    ensures n * (sum / n) == sum
  {}
}
