/** The fit does not depend on the order its samples came in, as long as no two
    were measured at the same instant: its sums, its worst residual, its least
    round trip and its anchor are each those of the samples as a multiset. */
module ClockOrder {
  import opened Wrappers
  import opened ClientBeaconEcho
  import opened ClientHostClock
  import opened ClockBounds
  import opened LeastSquares

  predicate DistinctTimes(samples: seq<Sample>) {
    forall i, j :: 0 <= i < j < |samples| ==> samples[i].measuredAt != samples[j].measuredAt
  }

  // ----- Totals do not depend on order --------------------------------------

  lemma {:induction false} TotalAppend(f: Point -> real, a: seq<Point>, b: seq<Point>)
    ensures Total(f, a + b) == Total(f, a) + Total(f, b)
    decreases |b|
  {
    if b == [] {
      assert a + b == a;
    } else {
      assert (a + b)[..|a + b| - 1] == a + b[..|b| - 1];
      TotalAppend(f, a, b[..|b| - 1]);
    }
  }

  /** The sequence without its element at `i`. */
  function Without<T>(s: seq<T>, i: nat): seq<T>
    requires i < |s|
  {
    s[..i] + s[i + 1..]
  }

  lemma WithoutIs<T>(s: seq<T>, i: nat)
    requires i < |s|
    ensures s == s[..i] + [s[i]] + s[i + 1..]
    ensures multiset(s) == multiset(Without(s, i)) + multiset{s[i]}
  {
    assert s == s[..i] + [s[i]] + s[i + 1..];
  }

  lemma WithoutTakesOne<T>(s: seq<T>, i: nat)
    requires i < |s|
    ensures multiset(Without(s, i)) == multiset(s) - multiset{s[i]}
  {
    WithoutIs(s, i);
  }

  /** Two orders of the same elements: where the first's last is in the second. */
  lemma Matched<T>(s: seq<T>, t: seq<T>) returns (i: nat)
    requires multiset(s) == multiset(t) && s != []
    ensures i < |t| && t[i] == s[|s| - 1] && |t| == |s|
    ensures multiset(s[..|s| - 1]) == multiset(Without(t, i))
  {
    i := Placed(s, t);
    WithoutTakesOne(s, |s| - 1);
    WithoutTakesOne(t, i);
    assert Without(s, |s| - 1) == s[..|s| - 1];
  }

  lemma Placed<T>(s: seq<T>, t: seq<T>) returns (i: nat)
    requires multiset(s) == multiset(t) && s != []
    ensures i < |t| && t[i] == s[|s| - 1] && |t| == |s|
  {
    assert |multiset(s)| == |s| && |multiset(t)| == |t|;
    assert s[|s| - 1] in multiset(t);
    i :| 0 <= i < |t| && t[i] == s[|s| - 1];
  }

  lemma {:induction false} TotalPermutes(f: Point -> real, ps: seq<Point>, qs: seq<Point>)
    requires multiset(ps) == multiset(qs)
    ensures Total(f, ps) == Total(f, qs)
    decreases |ps|
  {
    if ps == [] {
      assert |multiset(qs)| == |qs|;
    } else {
      var i := Matched(ps, qs);
      TotalPermutes(f, ps[..|ps| - 1], Without(qs, i));
      WithoutIs(qs, i);
      TotalAppend(f, qs[..i], [qs[i]]);
      TotalAppend(f, qs[..i] + [qs[i]], qs[i + 1..]);
      TotalAppend(f, qs[..i], qs[i + 1..]);
      assert Total(f, [qs[i]]) == f(qs[i]) by { assert [qs[i]][..0] == []; }
    }
  }

  // ----- The sums of the fit ------------------------------------------------

  lemma SumsPermute(ps: seq<Point>, qs: seq<Point>, cx: real, cy: real)
    requires multiset(ps) == multiset(qs)
    ensures SumX(ps) == SumX(qs) && SumY(ps) == SumY(qs)
    ensures Spread(ps, cx) == Spread(qs, cx) && Cross(ps, cx, cy) == Cross(qs, cx, cy)
  {
    SumsAreTotals(ps, cx, cy);
    SumsAreTotals(qs, cx, cy);
    TotalPermutes(XOf, ps, qs);
    TotalPermutes(YOf, ps, qs);
    TotalPermutes(SquareFrom(cx), ps, qs);
    TotalPermutes(ProductFrom(cx, cy), ps, qs);
  }

  lemma SkewPermutes(ps: seq<Point>, qs: seq<Point>, cfg: Config)
    requires multiset(ps) == multiset(qs) && ps != []
    ensures qs != [] && SkewOf(ps, cfg) == SkewOf(qs, cfg)
    ensures MeanX(ps) == MeanX(qs) && MeanY(ps) == MeanY(qs)
  {
    assert |multiset(ps)| == |ps| && |multiset(qs)| == |qs|;
    SumsPermute(ps, qs, 0.0, 0.0);
    SumsPermute(ps, qs, MeanX(ps), MeanY(ps));
  }

  lemma {:induction false} WorstIs(ps: seq<Point>, skew: real, intercept: real)
    ensures WorstResidual(ps, skew, intercept) >= 0.0
    ensures forall p :: p in ps ==> Deviation(p, skew, intercept) <= WorstResidual(ps, skew, intercept)
    ensures WorstResidual(ps, skew, intercept) > 0.0 ==>
      exists p :: p in ps && Deviation(p, skew, intercept) == WorstResidual(ps, skew, intercept)
  {
    if ps != [] {
      var init, last := ps[..|ps| - 1], ps[|ps| - 1];
      WorstIs(init, skew, intercept);
      forall p | p in ps
        ensures p in init || p == last
      {}
      if WorstResidual(ps, skew, intercept) == Deviation(last, skew, intercept) {
        assert last in ps;
      } else if WorstResidual(ps, skew, intercept) > 0.0 {
        var p :| p in init && Deviation(p, skew, intercept) == WorstResidual(init, skew, intercept);
        assert p in ps;
      }
    }
  }

  lemma WorstPermutes(ps: seq<Point>, qs: seq<Point>, skew: real, intercept: real)
    requires multiset(ps) == multiset(qs)
    ensures WorstResidual(ps, skew, intercept) == WorstResidual(qs, skew, intercept)
  {
    WorstIs(ps, skew, intercept);
    WorstIs(qs, skew, intercept);
    assert forall p :: p in ps <==> p in multiset(ps);
    assert forall p :: p in qs <==> p in multiset(qs);
  }

  // ----- The gate, the anchor and the points --------------------------------

  lemma {:induction false} GatedAppend(a: seq<Sample>, b: seq<Sample>, gate: int)
    ensures Gated(a + b, gate) == Gated(a, gate) + Gated(b, gate)
    decreases |b|
  {
    if b == [] {
      assert a + b == a;
    } else {
      assert (a + b)[..|a + b| - 1] == a + b[..|b| - 1];
      GatedAppend(a, b[..|b| - 1], gate);
    }
  }

  /** The gate around one sample. */
  lemma GatedAround(t: seq<Sample>, i: nat, gate: int)
    requires i < |t|
    ensures multiset(Gated(t, gate))
         == multiset(Gated(Without(t, i), gate)) + (if t[i].rtt <= gate then multiset{t[i]} else multiset{})
  {
    WithoutIs(t, i);
    GatedAppend(t[..i], [t[i]], gate);
    GatedAppend(t[..i] + [t[i]], t[i + 1..], gate);
    GatedAppend(t[..i], t[i + 1..], gate);
    assert Gated([t[i]], gate) == if t[i].rtt <= gate then [t[i]] else [] by { assert [t[i]][..0] == []; }
  }

  lemma {:induction false} GatedPermutes(s: seq<Sample>, t: seq<Sample>, gate: int)
    requires multiset(s) == multiset(t)
    ensures multiset(Gated(s, gate)) == multiset(Gated(t, gate))
    decreases |s|
  {
    if s == [] {
      assert |multiset(t)| == |t|;
    } else {
      var i := Matched(s, t);
      GatedPermutes(s[..|s| - 1], Without(t, i), gate);
      GatedAround(t, i, gate);
    }
  }

  lemma {:induction false} CentredAppend(a: seq<Sample>, b: seq<Sample>, anchor: Sample)
    ensures Centred(a + b, anchor) == Centred(a, anchor) + Centred(b, anchor)
    decreases |b|
  {
    if b == [] {
      assert a + b == a;
    } else {
      assert (a + b)[..|a + b| - 1] == a + b[..|b| - 1];
      CentredAppend(a, b[..|b| - 1], anchor);
    }
  }

  lemma {:induction false} CentredPermutes(s: seq<Sample>, t: seq<Sample>, anchor: Sample)
    requires multiset(s) == multiset(t)
    ensures multiset(Centred(s, anchor)) == multiset(Centred(t, anchor))
    decreases |s|
  {
    if s == [] {
      assert |multiset(t)| == |t|;
    } else {
      var i := Matched(s, t);
      CentredPermutes(s[..|s| - 1], Without(t, i), anchor);
      WithoutIs(t, i);
      CentredAppend(t[..i], [t[i]], anchor);
      CentredAppend(t[..i] + [t[i]], t[i + 1..], anchor);
      CentredAppend(t[..i], t[i + 1..], anchor);
      assert Centred([t[i]], anchor) == [CentredPoint(t[i], anchor)] by { assert [t[i]][..0] == []; }
    }
  }

  lemma {:induction false} AnchorIs(samples: seq<Sample>)
    requires samples != []
    ensures Anchor(samples) in samples
    ensures forall s :: s in samples ==> s.measuredAt <= Anchor(samples).measuredAt
  {
    if |samples| > 1 {
      var init, last := samples[..|samples| - 1], samples[|samples| - 1];
      AnchorIs(init);
      forall s | s in samples
        ensures s in init || s == last
      {}
    }
  }

  /** One sample to a time, in either order. */
  predicate OneToATime(samples: seq<Sample>) {
    forall s, t :: s in samples && t in samples && s.measuredAt == t.measuredAt ==> s == t
  }

  lemma AnchorPermutes(s: seq<Sample>, t: seq<Sample>)
    requires multiset(s) == multiset(t) && s != [] && OneToATime(s)
    ensures t != [] && Anchor(s) == Anchor(t)
  {
    assert |multiset(t)| == |t| && |multiset(s)| == |s|;
    assert forall x :: x in s <==> x in multiset(s);
    assert forall x :: x in t <==> x in multiset(t);
    AnchorIs(s);
    AnchorIs(t);
  }

  lemma MinRttPermutes(s: seq<Sample>, t: seq<Sample>)
    requires multiset(s) == multiset(t) && s != []
    ensures t != [] && MinRtt(s) == MinRtt(t)
  {
    assert |multiset(t)| == |t| && |multiset(s)| == |s|;
    MinRttIs(s);
    MinRttIs(t);
    var i :| 0 <= i < |s| && s[i].rtt == MinRtt(s);
    var j :| 0 <= j < |t| && t[j].rtt == MinRtt(t);
    assert s[i] in multiset(t) && t[j] in multiset(s);
  }

  // ----- The fit ------------------------------------------------------------

  lemma FitParts(s: seq<Sample>, windowed: nat, minRtt: int, cfg: Config)
    returns (anchor: Sample, ps: seq<Point>, skew: real, intercept: real, worst: real)
    requires s != []
    ensures anchor == Anchor(s) && ps == Centred(s, anchor) && ps != []
    ensures skew == SkewOf(ps, cfg) && intercept == Intercept(ps, skew)
    ensures worst == WorstResidual(ps, skew, intercept)
    ensures FitAccepted(s, windowed, minRtt, cfg)
         == Estimate(anchor.offset + Rounded(intercept), anchor.measuredAt, skew, worst, |s|, windowed, minRtt)
  {
    anchor := Anchor(s);
    ps := Centred(s, anchor);
    skew := SkewOf(ps, cfg);
    intercept := Intercept(ps, skew);
    worst := WorstResidual(ps, skew, intercept);
  }

  lemma LinePermutes(ps: seq<Point>, qs: seq<Point>, cfg: Config)
    requires multiset(ps) == multiset(qs) && ps != []
    ensures qs != [] && SkewOf(ps, cfg) == SkewOf(qs, cfg)
    ensures Intercept(ps, SkewOf(ps, cfg)) == Intercept(qs, SkewOf(qs, cfg))
  {
    SkewPermutes(ps, qs, cfg);
  }

  lemma FitAcceptedPermutes(s: seq<Sample>, t: seq<Sample>, windowed: nat, minRtt: int, cfg: Config)
    requires multiset(s) == multiset(t) && s != [] && OneToATime(s)
    ensures t != [] && FitAccepted(s, windowed, minRtt, cfg) == FitAccepted(t, windowed, minRtt, cfg)
  {
    AnchorPermutes(s, t);
    var a, ps, skew, intercept, worst := FitParts(s, windowed, minRtt, cfg);
    var b, qs, skew', intercept', worst' := FitParts(t, windowed, minRtt, cfg);
    CentredPermutes(s, t, a);
    LinePermutes(ps, qs, cfg);
    WorstPermutes(ps, qs, skew, intercept);
    assert |multiset(s)| == |s| && |multiset(t)| == |t|;
  }

  lemma AcceptedAreDistinct(s: seq<Sample>, gate: int)
    requires DistinctTimes(s)
    ensures OneToATime(Gated(s, gate))
  {
    GatedHolds(s, gate);
    var accepted := Gated(s, gate);
    forall x, y | x in accepted && y in accepted && x.measuredAt == y.measuredAt
      ensures x == y
    {
      var i :| 0 <= i < |accepted| && accepted[i] == x;
      var j :| 0 <= j < |accepted| && accepted[j] == y;
      var k :| 0 <= k < |s| && s[k] == x;
      var l :| 0 <= l < |s| && s[l] == y;
    }
  }

  lemma AcceptedPermute(s: seq<Sample>, t: seq<Sample>, gate: int, windowed: nat, minRtt: int, cfg: Config)
    requires multiset(s) == multiset(t) && DistinctTimes(s)
    ensures Gated(s, gate) == [] <==> Gated(t, gate) == []
    ensures Gated(s, gate) != [] ==>
      FitAccepted(Gated(s, gate), windowed, minRtt, cfg) == FitAccepted(Gated(t, gate), windowed, minRtt, cfg)
  {
    var a, b := Gated(s, gate), Gated(t, gate);
    GatedPermutes(s, t, gate);
    assert |multiset(a)| == |a| && |multiset(b)| == |b|;
    AcceptedAreDistinct(s, gate);
    if a != [] { FitAcceptedPermutes(a, b, windowed, minRtt, cfg); }
  }

  /** The fit, by its parts. */
  lemma FitIs(s: seq<Sample>, minRtt: int, accepted: seq<Sample>, cfg: Config) returns (fit: Option<Estimate>)
    requires s != [] && minRtt == MinRtt(s) && accepted == Gated(s, minRtt + cfg.rttGate)
    ensures fit == Fit(s, cfg)
    ensures fit == if accepted == [] then None else Some(FitAccepted(accepted, |s|, minRtt, cfg))
  {
    fit := Fit(s, cfg);
  }

  /** Whatever order the same samples stand in, the fit is the same. */
  lemma FitIgnoresOrder(s: seq<Sample>, t: seq<Sample>, cfg: Config)
    requires multiset(s) == multiset(t) && DistinctTimes(s)
    ensures Fit(s, cfg) == Fit(t, cfg)
  {
    assert |multiset(s)| == |s| && |multiset(t)| == |t|;
    if s != [] {
      MinRttPermutes(s, t);
      var minRtt := MinRtt(s);
      var gate := minRtt + cfg.rttGate;
      var a, b := Gated(s, gate), Gated(t, gate);
      var f := FitIs(s, minRtt, a, cfg);
      var g := FitIs(t, minRtt, b, cfg);
      AcceptedPermute(s, t, gate, |s|, minRtt, cfg);
      assert f == g;
    }
  }
}
