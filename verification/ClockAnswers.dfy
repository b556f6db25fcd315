/** What the clock keeps of each sample, and what its fit is: over the samples that
    passed the gate, no line within the clamp misses less. The window is given by the
    positions it keeps, the line by its squared misses against every other line's, and
    the map by the instant it names. */
module ClockAnswers {
  import opened Wrappers
  import opened ClientBeaconEcho
  import opened ClientHostClock
  import opened ClockBounds
  import opened ClockOrder
  import opened LeastSquares
  import opened LeastSquaresBest
  import opened Positions

  // ----- The window ---------------------------------------------------------

  lemma {:induction false} SincePicks(samples: seq<Sample>, horizon: int) returns (at: seq<nat>)
    ensures Picks(at, samples, Since(samples, horizon))
    ensures forall k :: 0 <= k < |samples| ==> (k in at <==> samples[k].measuredAt >= horizon)
  {
    if samples == [] {
      at := [];
    } else {
      var rest := SincePicks(samples[1..], horizon);
      var head := samples[0].measuredAt >= horizon;
      at := Behind(rest, head);
      BehindPicks(rest, samples, Since(samples[1..], horizon), head);
      forall k | 0 <= k < |samples|
        ensures k in at <==> samples[k].measuredAt >= horizon
      {
        BehindHolds(rest, head, k);
        if k > 0 { assert samples[1..][k - 1] == samples[k]; }
      }
    }
  }

  /** The newest of the samples, up to the count, and of those the ones since the
      horizon. */
  lemma KeptPicks(samples: seq<Sample>, count: nat, horizon: int) returns (at: seq<nat>)
    ensures Picks(at, samples, Since(Newest(samples, count), horizon))
    ensures forall k :: 0 <= k < |samples| ==>
      (k in at <==> k + count >= |samples| && samples[k].measuredAt >= horizon)
  {
    var kept := Newest(samples, count);
    var skipped := |samples| - |kept|;
    assert kept == samples[skipped..];
    var inside := SincePicks(kept, horizon);
    at := Shifted(inside, skipped);
    ShiftedPicks(inside, samples, Since(kept, horizon), skipped);
    forall k | 0 <= k < |samples|
      ensures k in at <==> k + count >= |samples| && samples[k].measuredAt >= horizon
    {
      ShiftedHolds(inside, skipped, k);
      if k >= skipped { assert kept[k - skipped] == samples[k]; }
    }
  }

  lemma {:induction false} SinceAll(samples: seq<Sample>, horizon: int)
    requires forall i :: 0 <= i < |samples| ==> samples[i].measuredAt >= horizon
    ensures Since(samples, horizon) == samples
  {
    if samples != [] { SinceAll(samples[1..], horizon); }
  }

  /** The horizon below which samples go: none before the window is full of time. */
  predicate Recent(s: Sample, newest: int, cfg: Config) {
    newest <= cfg.window || s.measuredAt >= newest - cfg.window
  }

  /** An implausible sample changes nothing. Any other joins at the end; then the newest
      of the window stay, up to the configured count, and of those the ones measured
      within the window of the newest instant yet. */
  lemma IngestAnswers(c: Clock, s: Sample, cfg: Config) returns (d: Clock, at: seq<nat>)
    ensures d == Ingest(c, s, cfg)
    ensures !Plausible(s) ==> d == c
    ensures Plausible(s) ==>
              && d.newest == (if s.measuredAt > c.newest then s.measuredAt else c.newest)
              && Picks(at, c.window + [s], d.window)
              && forall k :: 0 <= k <= |c.window| ==>
                   (k in at <==> k + cfg.maxSamples > |c.window| && Recent((c.window + [s])[k], d.newest, cfg))
  {
    d := Ingest(c, s, cfg);
    at := [];
    if Plausible(s) {
      var all := c.window + [s];
      if d.newest > cfg.window {
        at := KeptPicks(all, cfg.maxSamples, d.newest - cfg.window);
      } else {
        var horizon := Lowest(all);
        at := KeptPicks(all, cfg.maxSamples, horizon);
        LowestIs(all);
        SinceAll(Newest(all, cfg.maxSamples), horizon);
      }
    }
  }

  lemma {:induction false} LowestIs(samples: seq<Sample>)
    ensures forall i :: 0 <= i < |samples| ==> samples[i].measuredAt >= Lowest(samples)
  {
    if samples != [] {
      LowestIs(samples[1..]);
      forall i | 0 <= i < |samples| ensures samples[i].measuredAt >= Lowest(samples) {
        if i > 0 { assert samples[i] == samples[1..][i - 1]; }
      }
    }
  }

  function Lowest(samples: seq<Sample>): int {
    if samples == [] then 0
    else if samples[0].measuredAt < Lowest(samples[1..]) then samples[0].measuredAt else Lowest(samples[1..])
  }

  // ----- The fit ------------------------------------------------------------

  /** The samples from one of them: elapsed time across, drift of the offset up. */
  function Seen(samples: seq<Sample>, a: Sample): seq<Point> {
    seq(|samples|, k requires 0 <= k < |samples| =>
      Point((samples[k].measuredAt - a.measuredAt) as real, (samples[k].offset - a.offset) as real))
  }

  lemma SeenIs(samples: seq<Sample>, a: Sample)
    ensures Seen(samples, a) == Centred(samples, a)
  {
    forall k | 0 <= k < |samples| ensures Seen(samples, a)[k] == Centred(samples, a)[k] {
      CentredAt(samples, a, k);
    }
  }

  /** Just the samples at most `gate` on their round trip, each as often as it came. */
  ghost predicate Passed(accepted: seq<Sample>, samples: seq<Sample>, gate: int) {
    forall s :: multiset(accepted)[s] == if s.rtt <= gate then multiset(samples)[s] else 0
  }

  lemma {:induction false} GatedPass(samples: seq<Sample>, gate: int)
    ensures Passed(Gated(samples, gate), samples, gate)
  {
    if samples != [] {
      var init, last := samples[..|samples| - 1], samples[|samples| - 1];
      GatedPass(init, gate);
      assert samples == init + [last];
    }
  }

  lemma {:induction false} AnchorIsLast(samples: seq<Sample>)
    requires samples != []
    ensures Anchor(samples) in samples && forall s :: s in samples ==> s.measuredAt <= Anchor(samples).measuredAt
  {
    var init, last := samples[..|samples| - 1], samples[|samples| - 1];
    assert samples == init + [last];
    if init != [] { AnchorIsLast(init); }
  }

  /** The integer nearest, the farther one from zero of two as near. */
  predicate Nearest(n: int, x: real) {
    if x >= 0.0 then x - 0.5 < n as real <= x + 0.5 else x - 0.5 <= n as real < x + 0.5
  }

  /** How far off the line the point is, either way. */
  function Off(p: Point, slope: real, intercept: real): real {
    if Over(p, slope, intercept) < 0.0 then -Over(p, slope, intercept) else Over(p, slope, intercept)
  }

  predicate LeastTrip(rtt: int, samples: seq<Sample>) {
    && (forall k :: 0 <= k < |samples| ==> rtt <= samples[k].rtt)
    && exists k :: 0 <= k < |samples| && samples[k].rtt == rtt
  }

  predicate Newer(a: Sample, samples: seq<Sample>) {
    a in samples && forall s :: s in samples ==> s.measuredAt <= a.measuredAt
  }

  lemma GateIsOpen(samples: seq<Sample>, cfg: Config) returns (least: int)
    requires cfg.Valid() && samples != []
    ensures least == MinRtt(samples) && Gated(samples, least + cfg.rttGate) != []
  {
    least := MinRtt(samples);
    MinRttIs(samples);
    GatedHolds(samples, least + cfg.rttGate);
    var i :| 0 <= i < |samples| && samples[i].rtt == least;
    assert samples[i].rtt <= least + cfg.rttGate;
  }

  lemma FitOf(samples: seq<Sample>, cfg: Config) returns (least: int, accepted: seq<Sample>)
    requires cfg.Valid() && samples != []
    ensures least == MinRtt(samples) && accepted == Gated(samples, least + cfg.rttGate) && accepted != []
    ensures Fit(samples, cfg) == Some(FitAccepted(accepted, |samples|, least, cfg))
  {
    least := GateIsOpen(samples, cfg);
    accepted := Gated(samples, least + cfg.rttGate);
  }

  lemma GateLets(samples: seq<Sample>, cfg: Config, least: int, accepted: seq<Sample>)
    requires samples != [] && least == MinRtt(samples) && accepted == Gated(samples, least + cfg.rttGate)
    ensures LeastTrip(least, samples) && Passed(accepted, samples, least + cfg.rttGate)
  {
    MinRttIs(samples);
    GatedPass(samples, least + cfg.rttGate);
  }

  /** A window's fit is over the samples within the gate of its least round trip: those,
      and no others. */
  lemma FitTakes(samples: seq<Sample>, cfg: Config) returns (least: int, accepted: seq<Sample>)
    requires cfg.Valid() && samples != []
    ensures LeastTrip(least, samples) && Passed(accepted, samples, least + cfg.rttGate) && accepted != []
    ensures Fit(samples, cfg) == Some(FitAccepted(accepted, |samples|, least, cfg))
  {
    least, accepted := FitOf(samples, cfg);
    GateLets(samples, cfg, least, accepted);
  }

  /** And over those its line is the best: with too few the best level one, and else the
      best within the clamp, of any slope `t` and any intercept `j`, seen from the last
      measured of them, the anchor. Its offset there is the integer nearest the line's,
      and its residual the farthest any of them lies off the line. */
  lemma FitIsBest(accepted: seq<Sample>, windowed: nat, least: int, cfg: Config, t: real, j: real)
      returns (e: Estimate, a: Sample, i: real)
    requires cfg.Valid() && accepted != [] && -cfg.maxSkew <= t <= cfg.maxSkew
    ensures e == FitAccepted(accepted, windowed, least, cfg)
    ensures Newer(a, accepted) && e.anchor == a.measuredAt
    ensures e.accepted == |accepted| && e.windowed == windowed && e.minRtt == least
    ensures -cfg.maxSkew <= e.skew <= cfg.maxSkew && (|accepted| < cfg.minimumForSkew ==> e.skew == 0.0)
    ensures |accepted| >= cfg.minimumForSkew || t == 0.0 ==>
      var ps := Seen(accepted, a);
      Miss(ps, t, j) >= Miss(ps, e.skew, i) + Apart(ps, t, j, e.skew, i)
    ensures Nearest(e.offset - a.offset, i) && IsWorst(e.residualMax, Seen(accepted, a), e.skew, i)
  {
    e := FitAccepted(accepted, windowed, least, cfg);
    a := Anchor(accepted);
    AnchorIsLast(accepted);
    i := LineOf(accepted, cfg, a, e.skew, t, j);
    WorstOf(Seen(accepted, a), e.skew, i);
  }

  lemma LineOf(accepted: seq<Sample>, cfg: Config, a: Sample, skew: real, t: real, j: real) returns (i: real)
    requires cfg.Valid() && accepted != [] && -cfg.maxSkew <= t <= cfg.maxSkew
    requires a == Anchor(accepted) && skew == SkewOf(Centred(accepted, a), cfg)
    ensures Seen(accepted, a) == Centred(accepted, a) && i == Intercept(Seen(accepted, a), skew)
    ensures -cfg.maxSkew <= skew <= cfg.maxSkew && (|accepted| < cfg.minimumForSkew ==> skew == 0.0)
    ensures |accepted| >= cfg.minimumForSkew || t == 0.0 ==>
      var ps := Seen(accepted, a);
      Miss(ps, t, j) >= Miss(ps, skew, i) + Apart(ps, t, j, skew, i)
  {
    SeenIs(accepted, a);
    var ps := Seen(accepted, a);
    i := Intercept(ps, skew);
    if |accepted| >= cfg.minimumForSkew {
      SlopeIsBest(ps, cfg.maxSkew, t, j, skew, i);
    } else if t == 0.0 {
      LevelIsBest(ps, j, i);
    }
  }

  /** No point lies farther off the line than that, and one lies that far, if any lies
      off it at all. */
  predicate IsWorst(worst: real, ps: seq<Point>, slope: real, intercept: real) {
    && worst >= 0.0
    && (forall p :: p in ps ==> Off(p, slope, intercept) <= worst)
    && (worst > 0.0 ==> exists p :: p in ps && Off(p, slope, intercept) == worst)
  }

  lemma WorstOf(ps: seq<Point>, slope: real, intercept: real)
    ensures IsWorst(WorstResidual(ps, slope, intercept), ps, slope, intercept)
  {
    WorstIs(ps, slope, intercept);
    forall p: Point ensures Off(p, slope, intercept) == Deviation(p, slope, intercept) {}
  }

  lemma LevelIsBest(ps: seq<Point>, j: real, i: real)
    requires ps != [] && i == Intercept(ps, 0.0)
    ensures Miss(ps, 0.0, j) >= Miss(ps, 0.0, i) + Apart(ps, 0.0, j, 0.0, i)
  {
    assert Slope(ps, 0.0) == 0.0;
    SlopeIsBest(ps, 0.0, 0.0, j, 0.0, i);
  }

  // ----- The map ------------------------------------------------------------

  /** A fit whose skew is one names no instant: the map runs to the end of time away from
      the anchor, and stands still on it. */
  lemma MapDiverges(e: Estimate, host: int)
    requires e.skew == 1.0
    ensures var elapsed := host + e.offset - e.anchor;
            Map(e, host) == host + e.offset
              + if elapsed > 0 then 0x7FFF_FFFF_FFFF_FFFF else if elapsed == 0 then 0 else -0x8000_0000_0000_0000
  {
  }
}
