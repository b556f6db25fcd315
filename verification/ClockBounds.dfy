/** What the host clock model guarantees: a bounded window, an error bound from
    the round trips, exact recovery of a steady drift, and a monotone map. */
module ClockBounds {
  import opened ClientBeaconEcho
  import opened ClientHostClock
  import opened LeastSquares

  // ----- The window ---------------------------------------------------------

  predicate AllPlausible(samples: seq<Sample>) {
    forall i :: 0 <= i < |samples| ==> Plausible(samples[i])
  }

  predicate AllSince(samples: seq<Sample>, horizon: int) {
    forall i :: 0 <= i < |samples| ==> samples[i].measuredAt >= horizon
  }

  lemma {:induction false} SinceKeeps(samples: seq<Sample>, horizon: int)
    ensures |Since(samples, horizon)| <= |samples| && AllSince(Since(samples, horizon), horizon)
    ensures AllPlausible(samples) ==> AllPlausible(Since(samples, horizon))
    ensures forall h: int :: AllSince(samples, h) ==> AllSince(Since(samples, horizon), h)
  {
    if samples != [] {
      SinceKeeps(samples[1..], horizon);
      if AllPlausible(samples) { assert AllPlausible(samples[1..]); }
      forall h: int | AllSince(samples, h)
        ensures AllSince(Since(samples, horizon), h)
      {
        assert AllSince(samples[1..], h);
      }
    }
  }

  predicate Sound(c: Clock, cfg: Config) {
    && |c.window| <= cfg.maxSamples && AllPlausible(c.window)
    && (c.newest > cfg.window ==> AllSince(c.window, c.newest - cfg.window))
    && (forall i :: 0 <= i < |c.window| ==> c.window[i].measuredAt <= c.newest)
  }

  function IngestAll(c: Clock, samples: seq<Sample>, cfg: Config): Clock
    decreases |samples|
  {
    if samples == [] then c else IngestAll(Ingest(c, samples[0], cfg), samples[1..], cfg)
  }

  lemma IngestKeeps(c: Clock, s: Sample, cfg: Config)
    requires cfg.Valid() && Sound(c, cfg)
    ensures Sound(Ingest(c, s, cfg), cfg)
  {
    if Plausible(s) {
      var kept := Newest(c.window + [s], cfg.maxSamples);
      var newest := if s.measuredAt > c.newest then s.measuredAt else c.newest;
      assert AllPlausible(kept);
      SinceKeeps(kept, newest - cfg.window);
      SinceWithin(kept, newest - cfg.window, newest);
    }
  }

  lemma {:induction false} SinceWithin(samples: seq<Sample>, horizon: int, newest: int)
    requires forall i :: 0 <= i < |samples| ==> samples[i].measuredAt <= newest
    ensures forall i :: 0 <= i < |Since(samples, horizon)| ==> Since(samples, horizon)[i].measuredAt <= newest
  {
    if samples != [] { SinceWithin(samples[1..], horizon, newest); }
  }

  /** Whatever samples arrive, in whatever order, the window holds at most the
      configured count, only plausible samples, none older than the window. */
  lemma {:induction false} WindowStaysSound(c: Clock, samples: seq<Sample>, cfg: Config)
    requires cfg.Valid() && Sound(c, cfg)
    ensures Sound(IngestAll(c, samples, cfg), cfg)
    decreases |samples|
  {
    if samples != [] {
      IngestKeeps(c, samples[0], cfg);
      WindowStaysSound(Ingest(c, samples[0], cfg), samples[1..], cfg);
    }
  }

  // ----- The gate -----------------------------------------------------------

  lemma {:induction false} MinRttIs(samples: seq<Sample>)
    requires samples != []
    ensures forall i :: 0 <= i < |samples| ==> MinRtt(samples) <= samples[i].rtt
    ensures exists i :: 0 <= i < |samples| && samples[i].rtt == MinRtt(samples)
  {
    var rest := samples[..|samples| - 1];
    if rest != [] {
      MinRttIs(rest);
      var i :| 0 <= i < |rest| && rest[i].rtt == MinRtt(rest);
      assert samples[i] == rest[i];
    }
  }

  lemma {:induction false} GatedHolds(samples: seq<Sample>, gate: int)
    ensures forall i :: 0 <= i < |Gated(samples, gate)| ==>
      Gated(samples, gate)[i] in samples && Gated(samples, gate)[i].rtt <= gate
    ensures (exists i :: 0 <= i < |samples| && samples[i].rtt <= gate) ==> Gated(samples, gate) != []
  {
    if samples != [] {
      var rest := samples[..|samples| - 1];
      GatedHolds(rest, gate);
      if i :| 0 <= i < |samples| && samples[i].rtt <= gate {
        if i < |rest| { assert rest[i] == samples[i]; }
      }
    }
  }

  /** The model is usable from its first sample on. */
  lemma FitExists(samples: seq<Sample>, cfg: Config)
    requires cfg.Valid()
    ensures Fit(samples, cfg).Some? <==> samples != []
  {
    if samples != [] {
      MinRttIs(samples);
      GatedHolds(samples, MinRtt(samples) + cfg.rttGate);
      var i :| 0 <= i < |samples| && samples[i].rtt == MinRtt(samples);
      assert samples[i].rtt <= MinRtt(samples) + cfg.rttGate;
    }
  }

  // ----- The error bound ----------------------------------------------------

  /** Each sample is as close to the true offset as an honest exchange makes it. */
  predicate AllHonest(samples: seq<Sample>, truth: int) {
    forall i :: 0 <= i < |samples| ==>
      -samples[i].rtt - 1 <= 2 * (samples[i].offset - truth) <= samples[i].rtt + 1
  }

  predicate AllWithin(samples: seq<Sample>, truth: int, slack: int) {
    forall i :: 0 <= i < |samples| ==> -slack <= 2 * (samples[i].offset - truth) <= slack
  }

  lemma {:induction false} SumWithin(samples: seq<Sample>, anchor: Sample, truth: int, slack: int)
    requires AllWithin(samples, truth, slack)
    ensures var drift := 2.0 * SumY(Centred(samples, anchor)) + (|samples| * (2 * (anchor.offset - truth))) as real;
      -((|samples| * slack) as real) <= drift <= (|samples| * slack) as real
  {
    if samples != [] {
      var n := |samples| - 1;
      var rest := samples[..n];
      SumWithin(rest, anchor, truth, slack);
      assert Centred(samples, anchor)[..n] == Centred(rest, anchor);
      OneMoreTimes(n, slack);
      OneMoreTimes(n, 2 * (anchor.offset - truth));
    }
  }

  lemma OneMoreTimes(n: int, x: int)
    ensures (n + 1) * x == n * x + x
  {}

  lemma MeanWithin(sum: real, n: nat, centre: int, slack: int)
    requires n > 0
    requires -((n * slack) as real) <= 2.0 * sum + (n * centre) as real <= (n * slack) as real
    ensures -(slack as real) <= 2.0 * (sum / n as real) + centre as real <= slack as real
  {
    var m := n as real;
    assert (n * slack) as real == m * slack as real && (n * centre) as real == m * centre as real;
    Scaled(m, sum / m, centre as real, slack as real);
    assert m * (sum / m) == sum;
  }

  lemma Scaled(m: real, mean: real, centre: real, slack: real)
    requires m > 0.0
    requires -(m * slack) <= 2.0 * (m * mean) + m * centre <= m * slack
    ensures -slack <= 2.0 * mean + centre <= slack
  {
    var x := 2.0 * mean + centre;
    assert m * x == 2.0 * (m * mean) + m * centre;
    if x > slack { assert m * x > m * slack; }
    if x < -slack { assert m * x < m * -slack; }
  }

  lemma RoundedIsNear(x: real)
    ensures -1.0 <= 2.0 * (Rounded(x) as real - x) <= 1.0
  {}

  lemma AcceptedWithin(samples: seq<Sample>, truth: int, gate: int)
    requires AllHonest(samples, truth)
    ensures AllWithin(Gated(samples, gate), truth, gate + 1)
  {
    GatedHolds(samples, gate);
    var accepted := Gated(samples, gate);
    forall i | 0 <= i < |accepted|
      ensures -(gate + 1) <= 2 * (accepted[i].offset - truth) <= gate + 1
    {
      var j :| 0 <= j < |samples| && samples[j] == accepted[i];
    }
  }

  /** Where the accepted samples balance, the fitted line is within half of (the
      least round trip plus the gate) of the true offset, whatever its skew. */
  lemma CentroidIsClose(samples: seq<Sample>, cfg: Config, truth: int)
    requires cfg.Valid() && samples != [] && AllHonest(samples, truth)
    ensures var gate := MinRtt(samples) + cfg.rttGate;
      var accepted := Gated(samples, gate);
      accepted != [] &&
      var points := Centred(accepted, Anchor(accepted));
      -(gate + 1) as real <= 2.0 * MeanY(points) + (2 * (Anchor(accepted).offset - truth)) as real <= (gate + 1) as real
  {
    var gate := MinRtt(samples) + cfg.rttGate;
    FitExists(samples, cfg);
    var accepted := Gated(samples, gate);
    var anchor := Anchor(accepted);
    AcceptedWithin(samples, truth, gate);
    SumWithin(accepted, anchor, truth, gate + 1);
    MeanWithin(SumY(Centred(accepted, anchor)), |accepted|, 2 * (anchor.offset - truth), gate + 1);
  }

  /** What an offset-only fit says, over the samples that passed the gate. */
  lemma OffsetOnlyIs(samples: seq<Sample>, cfg: Config) returns (anchor: Sample, mean: real)
    requires samples != [] && Fit(samples, cfg).Some? && Fit(samples, cfg).value.skew == 0.0
    ensures var accepted := Gated(samples, MinRtt(samples) + cfg.rttGate);
      && accepted != [] && anchor == Anchor(accepted) && mean == MeanY(Centred(accepted, anchor))
      && Fit(samples, cfg).value.offset == anchor.offset + Rounded(mean)
  {
    var accepted := Gated(samples, MinRtt(samples) + cfg.rttGate);
    anchor := Anchor(accepted);
    mean := MeanY(Centred(accepted, anchor));
    FlatIntercept(Centred(accepted, anchor));
  }

  /** An offset-only fit of honest samples is within half of (the least round trip
      plus the gate) of the true offset, up to one microsecond of rounding. */
  lemma OffsetOnlyFitIsClose(samples: seq<Sample>, cfg: Config, truth: int)
    requires cfg.Valid() && samples != [] && AllHonest(samples, truth)
    requires Fit(samples, cfg).Some? && Fit(samples, cfg).value.skew == 0.0
    ensures var slack := MinRtt(samples) + cfg.rttGate + 2;
      -slack <= 2 * (Fit(samples, cfg).value.offset - truth) <= slack
  {
    CentroidIsClose(samples, cfg, truth);
    var anchor, mean := OffsetOnlyIs(samples, cfg);
    RoundedStaysClose(mean, anchor.offset, truth, MinRtt(samples) + cfg.rttGate + 1);
  }

  lemma FlatIntercept(points: seq<Point>)
    requires points != []
    ensures Intercept(points, 0.0) == MeanY(points)
  {}

  lemma RoundedStaysClose(mean: real, anchor: int, truth: int, slack: int)
    requires -slack as real <= 2.0 * mean + (2 * (anchor - truth)) as real <= slack as real
    ensures -slack - 1 <= 2 * (anchor + Rounded(mean) - truth) <= slack + 1
  {
    RoundedIsNear(mean);
  }

  // ----- A steady drift is recovered ----------------------------------------

  lemma NegativeSquare(d: real, square: real)
    requires d < 0.0 && square == d * d
    ensures square > 0.0
  {
    var e := -d;
    assert e * e == d * d;
    PositiveProduct(e, e, square);
  }

  lemma SquareSign(d: real, square: real)
    requires square == d * d
    ensures square >= 0.0 && (d != 0.0 ==> square > 0.0)
  {
    if d > 0.0 {
      PositiveProduct(d, d, square);
    } else if d < 0.0 {
      NegativeSquare(d, square);
    }
  }

  /** The spread is what the other points spread, plus one square. */
  lemma SpreadStep(ps: seq<Point>, c: real) returns (rest: real, square: real)
    requires ps != []
    ensures rest == Spread(ps[..|ps| - 1], c) && Spread(ps, c) == rest + square
    ensures square >= 0.0 && (ps[|ps| - 1].x != c ==> square > 0.0)
  {
    var d := ps[|ps| - 1].x - c;
    rest := Spread(ps[..|ps| - 1], c);
    square := Spread(ps, c) - rest;
    SquareSign(d, square);
  }

  lemma {:induction false} SpreadIsNonNegative(ps: seq<Point>, c: real)
    ensures Spread(ps, c) >= 0.0
  {
    if ps != [] {
      var rest, square := SpreadStep(ps, c);
      SpreadIsNonNegative(ps[..|ps| - 1], c);
    }
  }

  lemma {:induction false} SpreadIsPositive(ps: seq<Point>, c: real, i: nat)
    requires i < |ps| && ps[i].x != c
    ensures Spread(ps, c) > 0.0
    decreases |ps|
  {
    var rest, square := SpreadStep(ps, c);
    SpreadIsNonNegative(ps[..|ps| - 1], c);
    if i < |ps| - 1 { SpreadIsPositive(ps[..|ps| - 1], c, i); }
  }

  lemma {:induction false} NoResidual(points: seq<Point>, skew: real)
    requires OnLine(points, skew, 0.0)
    ensures WorstResidual(points, skew, 0.0) == 0.0
  {
    if points != [] {
      assert Fits(points[|points| - 1], skew, 0.0);
      NoResidual(points[..|points| - 1], skew);
    }
  }

  lemma {:induction false} CentredAt(samples: seq<Sample>, anchor: Sample, i: nat)
    requires i < |samples|
    ensures Centred(samples, anchor)[i] == CentredPoint(samples[i], anchor)
  {
    if i < |samples| - 1 { CentredAt(samples[..|samples| - 1], anchor, i); }
  }

  /** The samples drift steadily: offset against elapsed time is one line. */
  predicate DriftsFrom(samples: seq<Sample>, anchor: Sample, skew: real) {
    forall i :: 0 <= i < |samples| ==>
      (samples[i].offset - anchor.offset) as real == skew * (samples[i].measuredAt - anchor.measuredAt) as real
  }

  lemma DriftIsALine(samples: seq<Sample>, anchor: Sample, skew: real)
    requires DriftsFrom(samples, anchor, skew)
    ensures OnLine(Centred(samples, anchor), skew, 0.0)
  {
    var points := Centred(samples, anchor);
    forall i | 0 <= i < |points|
      ensures Fits(points[i], skew, 0.0)
    {
      CentredAt(samples, anchor, i);
    }
  }

  lemma LineIsFitted(points: seq<Point>, cfg: Config, skew: real, i: nat, j: nat)
    requires i < |points| && j < |points| && points[i].x != points[j].x
    requires |points| >= cfg.minimumForSkew && -cfg.maxSkew <= skew <= cfg.maxSkew
    requires OnLine(points, skew, 0.0)
    ensures SkewOf(points, cfg) == skew && Intercept(points, skew) == 0.0
    ensures WorstResidual(points, skew, 0.0) == 0.0
  {
    SpreadIsPositive(points, MeanX(points), if points[i].x != MeanX(points) then i else j);
    LineIsRecovered(points, skew, 0.0, cfg.maxSkew);
    NoResidual(points, skew);
  }

  lemma DriftIsFitted(samples: seq<Sample>, anchor: Sample, cfg: Config, skew: real, i: nat, j: nat)
    requires i < |samples| && j < |samples| && samples[i].measuredAt != samples[j].measuredAt
    requires |samples| >= cfg.minimumForSkew && -cfg.maxSkew <= skew <= cfg.maxSkew
    requires DriftsFrom(samples, anchor, skew)
    ensures var points := Centred(samples, anchor);
      SkewOf(points, cfg) == skew && Intercept(points, skew) == 0.0 && WorstResidual(points, skew, 0.0) == 0.0
  {
    DriftIsALine(samples, anchor, skew);
    CentredAt(samples, anchor, i);
    CentredAt(samples, anchor, j);
    LineIsFitted(Centred(samples, anchor), cfg, skew, i, j);
  }

  /** Accepted samples that lie on one drift line within the skew bound, measured
      at two instants at least, are recovered exactly: that skew, the anchor's own
      offset, and no residual. */
  lemma SteadyDriftIsRecovered(accepted: seq<Sample>, windowed: nat, minRtt: int, cfg: Config, skew: real,
                               i: nat, j: nat)
    requires i < |accepted| && j < |accepted|
    requires accepted[i].measuredAt != accepted[j].measuredAt && |accepted| >= cfg.minimumForSkew
    requires -cfg.maxSkew <= skew <= cfg.maxSkew
    requires DriftsFrom(accepted, Anchor(accepted), skew)
    ensures var e := FitAccepted(accepted, windowed, minRtt, cfg);
      e.skew == skew && e.offset == Anchor(accepted).offset && e.residualMax == 0.0
  {
    DriftIsFitted(accepted, Anchor(accepted), cfg, skew, i, j);
  }

  // ----- The map ------------------------------------------------------------

  lemma QuotientBack(a: real, b: real)
    requires b != 0.0
    ensures a / b * b == a
  {}

  /** The unrounded map solves tc = th + offset + skew * (tc - anchor) exactly, and
      the map is within half a microsecond of it. */
  lemma MapSolvesItsEquation(e: Estimate, host: int)
    requires e.skew != 1.0
    ensures var tc := (host + e.offset) as real + Correction(e, host);
      && tc == (host + e.offset) as real + e.skew * (tc - e.anchor as real)
      && -1.0 <= 2.0 * (Map(e, host) as real - tc) <= 1.0
  {
    var d := (host + e.offset - e.anchor) as real;
    var c := Correction(e, host);
    QuotientBack(e.skew * d, 1.0 - e.skew);
    assert c - e.skew * c == c * (1.0 - e.skew);
    assert e.skew * (d + c) == e.skew * d + e.skew * c;
    RoundedIsNear(c);
  }

  /** With a skew inside (-1, 1), as the default clamp keeps it, the map never
      runs backwards. */
  lemma MapIsMonotone(e: Estimate, host: int, later: int)
    requires -1.0 < e.skew < 1.0 && host <= later
    ensures Map(e, host) <= Map(e, later)
  {
    var c, c' := Correction(e, host), Correction(e, later);
    RoundedIsNear(c);
    RoundedIsNear(c');
    var d := (host + e.offset - e.anchor) as real;
    assert (later + e.offset - e.anchor) as real == d + (later - host) as real;
    QuotientBack(e.skew * d, 1.0 - e.skew);
    QuotientBack(e.skew * (d + (later - host) as real), 1.0 - e.skew);
    CorrectionDropsSlowly(e.skew, d, (later - host) as real, c, c');
  }

  lemma CorrectionDropsSlowly(b: real, d: real, k: real, c: real, c': real)
    requires -1.0 < b < 1.0 && k >= 0.0
    requires c * (1.0 - b) == b * d && c' * (1.0 - b) == b * (d + k)
    ensures 2.0 * (c' - c) >= -k
  {
    var q := 1.0 - b;
    var r := c' - c;
    assert r * q == b * k by { assert r * q == c' * q - c * q; assert b * (d + k) == b * d + b * k; }
    DropBound(b, k, r);
  }

  lemma DropBound(b: real, k: real, r: real)
    requires -1.0 < b < 1.0 && k >= 0.0 && r * (1.0 - b) == b * k
    ensures 2.0 * r >= -k
  {
    var t := 2.0 * r + k;
    calc {
      t * (1.0 - b);
      2.0 * (r * (1.0 - b)) + k * (1.0 - b);
      2.0 * (b * k) + k * (1.0 - b);
      k * (1.0 + b);
    }
    SignOfProduct(t, 1.0 - b, k, 1.0 + b);
  }

  lemma SignOfProduct(t: real, q: real, k: real, p: real)
    requires q > 0.0 && k >= 0.0 && p > 0.0 && t * q == k * p
    ensures t >= 0.0
  {
    QuotientBack(t, q);
    assert t == (t * q) / q;
  }
}
