/** The adaptive delay target: fresh arrivals' skew off the packet lattice is
    windowed, and the target covers the window's detrended spread. */
module AudioTarget {
  import opened Wrappers
  import LeastSquares

  datatype Config = Config(
    duration: int, minTarget: nat, maxTarget: nat, slack: nat,
    maxConceals: nat, recenterJump: nat, window: nat, cadence: nat, hold: nat, step: nat,
    maxSkewPpm: real)
  {
    ghost predicate Valid() {
      && duration > 0 && 1 <= minTarget <= maxTarget && 1 <= window && maxSkewPpm >= 0.0
    }

    function HardCap(): nat {
      maxTarget + slack
    }
  }

  const DEFAULT := Config(5_000, 5, 20, 4, 20, 50, 512, 5, 500, 2_000, 500.0)

  datatype Sample = Sample(number: int, skew: int)

  datatype Adaptation = Adaptation(
    target: nat, earned: bool,
    retargetProof: nat, holdProof: nat, stepProof: nat,
    anchor: Option<Sample>,        // number and arrival of the lattice's origin
    window: seq<Sample>, cursor: nat,
    burstEnd: Option<int>)

  function Fresh(initial: nat): Adaptation {
    Adaptation(initial, false, 0, 0, 0, None, [], 0, None)
  }

  function ResetWindows(a: Adaptation): Adaptation {
    a.(anchor := None, window := [], cursor := 0)
  }

  /** A packet late by `behind` slots proves the cushion too shallow. */
  function Deepen(a: Adaptation, cfg: Config, behind: nat): Adaptation {
    if behind > cfg.maxTarget then a
    else
      a.(target := if a.target + behind > cfg.maxTarget then cfg.maxTarget else a.target + behind,
         earned := true, holdProof := 0, stepProof := 0)
  }

  // ----- The projection -----------------------------------------------------

  function PointOf(s: Sample): LeastSquares.Point {
    LeastSquares.Point(s.number as real, s.skew as real)
  }

  function Points(window: seq<Sample>): (points: seq<LeastSquares.Point>)
    ensures |points| == |window|
  {
    if window == [] then [] else Points(window[..|window| - 1]) + [PointOf(window[|window| - 1])]
  }

  /** The skew clamp, per packet. */
  function SkewBound(cfg: Config): real {
    cfg.maxSkewPpm / 1_000_000.0 * cfg.duration as real
  }

  function SlopePerPacket(window: seq<Sample>, cfg: Config): real
    requires window != []
  {
    if |window| >= 128 then
      LeastSquares.Slope(Points(window), SkewBound(cfg))
    else 0.0
  }

  function Residual(s: Sample, slope: real): real {
    s.skew as real - slope * s.number as real
  }

  function Lowest(window: seq<Sample>, slope: real): (low: real)
    requires window != []
    ensures forall i :: 0 <= i < |window| ==> low <= Residual(window[i], slope)
    ensures exists i :: 0 <= i < |window| && low == Residual(window[i], slope)
  {
    var last := Residual(window[|window| - 1], slope);
    if |window| == 1 then last
    else
      var rest := Lowest(window[..|window| - 1], slope);
      if rest < last then rest else last
  }

  function Highest(window: seq<Sample>, slope: real): (high: real)
    requires window != []
    ensures forall i :: 0 <= i < |window| ==> Residual(window[i], slope) <= high
    ensures exists i :: 0 <= i < |window| && high == Residual(window[i], slope)
  {
    var last := Residual(window[|window| - 1], slope);
    if |window| == 1 then last
    else
      var rest := Highest(window[..|window| - 1], slope);
      if rest > last then rest else last
  }

  function Ceiling(x: real): int {
    if x.Floor as real == x then x.Floor else x.Floor + 1
  }

  function PacketsFor(spread: int, duration: nat): int
    requires duration > 0
  {
    1 + (spread + duration - 1) / duration
  }

  /** One packet of headroom past the spread, in whole packets. */
  function Needed(window: seq<Sample>, cfg: Config): int
    requires window != [] && cfg.duration > 0
  {
    var slope := SlopePerPacket(window, cfg);
    var spread := Ceiling(Highest(window, slope) - Lowest(window, slope));
    PacketsFor(spread, cfg.duration)
  }

  function Desired(window: seq<Sample>, cfg: Config): nat
    requires window != [] && cfg.duration > 0
  {
    var needed := Needed(window, cfg);
    if needed > cfg.maxTarget then cfg.maxTarget
    else if needed < cfg.minTarget then cfg.minTarget else needed
  }

  function AtLeastOne(n: nat): nat {
    if n < 1 then 1 else n
  }

  /** Rise at once; shed an earned cushion one packet at a time, late. */
  function Retarget(a: Adaptation, cfg: Config, started: bool): Adaptation
    requires cfg.duration > 0
  {
    if |a.window| < 16 || !started then a
    else
      var desired := Desired(a.window, cfg);
      if desired > a.target then
        a.(target := desired, earned := true, holdProof := 0, stepProof := 0)
      else if desired < a.target && !a.earned then a.(target := desired)
      else if desired < a.target && a.holdProof >= AtLeastOne(cfg.hold)
              && a.stepProof >= AtLeastOne(cfg.step) then
        a.(target := a.target - 1, stepProof := 0,
           earned := a.earned && a.target - 1 != cfg.minTarget)
      else a
  }

  // ----- Samples ------------------------------------------------------------

  function LowestSkew(window: seq<Sample>): int
    requires window != []
  {
    var last := window[|window| - 1].skew;
    if |window| == 1 then last
    else
      var rest := LowestSkew(window[..|window| - 1]);
      if rest < last then rest else last
  }

  function Shift(window: seq<Sample>, low: int): seq<Sample> {
    seq(|window|, i requires 0 <= i < |window| => window[i].(skew := window[i].skew - low))
  }

  /** Appends a sample; a full window is overwritten round robin, and each time
      the cursor wraps the window's minimum is folded into the anchor. */
  function Record(a: Adaptation, cfg: Config, anchor: Sample, sample: Sample): Adaptation
    requires a.cursor < cfg.window
  {
    if |a.window| < cfg.window then
      a.(anchor := Some(anchor), window := a.window + [sample])
    else
      var filled := a.window[a.cursor := sample];
      var cursor := (a.cursor + 1) % |filled|;
      if cursor != 0 then a.(anchor := Some(anchor), window := filled, cursor := cursor)
      else
        var low := LowestSkew(filled);
        a.(anchor := Some(anchor.(skew := anchor.skew + low)), window := Shift(filled, low), cursor := 0)
  }

  /** The arrival's skew off the lattice through the anchor, recorded. */
  function RecordArrival(a: Adaptation, cfg: Config, number: int, arrival: int): Adaptation
    requires a.cursor < cfg.window
  {
    var anchor := if a.anchor.Some? then a.anchor.value else Sample(number, arrival);
    var delta := number - anchor.number;
    Record(a, cfg, anchor, Sample(delta, arrival - anchor.skew - delta * cfg.duration))
  }

  /** Counts a recorded arrival, and retargets on the cadence. */
  function Counted(a: Adaptation, cfg: Config, started: bool): Adaptation
    requires cfg.duration > 0
  {
    var b := a.(holdProof := a.holdProof + 1, stepProof := a.stepProof + 1);
    if b.retargetProof + 1 < AtLeastOne(cfg.cadence) then b.(retargetProof := b.retargetProof + 1)
    else Retarget(b.(retargetProof := 0), cfg, started)
  }

  /** One fresh, wire-carried arrival past any wake burst. */
  function NoteArrival(
    a: Adaptation, cfg: Config, started: bool, number: int, recovered: bool, arrival: int): Adaptation
    requires cfg.Valid() && a.cursor < cfg.window
  {
    if recovered || (a.burstEnd.Some? && number < a.burstEnd.value) then a
    else Counted(RecordArrival(a.(burstEnd := None), cfg, number, arrival), cfg, started)
  }

  // ----- What the controller keeps ------------------------------------------

  ghost predicate Sound(a: Adaptation, cfg: Config) {
    && cfg.minTarget <= a.target <= cfg.maxTarget
    && a.cursor < cfg.window && |a.window| <= cfg.window
  }

  lemma NoteArrivalIsSound(
    a: Adaptation, cfg: Config, started: bool, number: int, recovered: bool, arrival: int)
    requires cfg.Valid() && Sound(a, cfg)
    ensures Sound(NoteArrival(a, cfg, started, number, recovered, arrival), cfg)
    ensures !started ==> NoteArrival(a, cfg, started, number, recovered, arrival).target == a.target
  {
  }

  lemma CeilingIsLeast(x: real, n: int)
    ensures x <= Ceiling(x) as real
    ensures x <= n as real ==> Ceiling(x) <= n
  {
  }

  /** A retarget leaves the target covering the window: short of the ceiling,
      any two samples' detrended skews differ by at most target - 1 packets. */
  lemma RetargetCovers(a: Adaptation, cfg: Config, i: nat, j: nat)
    requires cfg.Valid() && Sound(a, cfg) && |a.window| >= 16
    requires i < |a.window| && j < |a.window|
    ensures var b := Retarget(a, cfg, true);
            var slope := SlopePerPacket(a.window, cfg);
            b.target < cfg.maxTarget ==>
              Residual(a.window[i], slope) - Residual(a.window[j], slope)
              <= ((b.target - 1) * cfg.duration) as real
  {
    var b := Retarget(a, cfg, true);
    assert b.target >= Desired(a.window, cfg);
    if b.target < cfg.maxTarget {
      var slope := SlopePerPacket(a.window, cfg);
      var gap := Highest(a.window, slope) - Lowest(a.window, slope);
      CeilingIsLeast(gap, 0);
      RoundsUp(Ceiling(gap), cfg.duration, b.target - 1);
    }
  }

  lemma RoundsUp(spread: int, duration: int, packets: int)
    requires duration > 0 && packets >= (spread + duration - 1) / duration
    ensures spread <= packets * duration
  {
    var q := (spread + duration - 1) / duration;
    assert q * duration + (spread + duration - 1) % duration == spread + duration - 1;
  }

  lemma FlatAsksForTheFloor(window: seq<Sample>, cfg: Config, slope: real, level: real)
    requires cfg.Valid() && window != [] && slope == SlopePerPacket(window, cfg)
    requires forall i :: 0 <= i < |window| ==> Residual(window[i], slope) == level
    ensures Desired(window, cfg) == cfg.minTarget
  {
    assert Highest(window, slope) == level == Lowest(window, slope);
    assert (0 + cfg.duration - 1) / cfg.duration == 0;
  }

  lemma {:induction false} PointsAt(window: seq<Sample>, i: nat)
    requires i < |window|
    ensures Points(window)[i] == PointOf(window[i])
  {
    if i < |window| - 1 { PointsAt(window[..|window| - 1], i); }
  }

  lemma PointOnLine(s: Sample, slope: real, intercept: real)
    requires Residual(s, slope) == intercept
    ensures LeastSquares.Fits(PointOf(s), slope, intercept)
  {}

  lemma DriftIsALine(window: seq<Sample>, slope: real, intercept: real)
    requires forall i :: 0 <= i < |window| ==> Residual(window[i], slope) == intercept
    ensures LeastSquares.OnLine(Points(window), slope, intercept)
  {
    forall i | 0 <= i < |window|
      ensures LeastSquares.Fits(Points(window)[i], slope, intercept)
    {
      PointsAt(window, i);
      PointOnLine(window[i], slope, intercept);
    }
  }

  lemma DriftIsFitted(window: seq<Sample>, cfg: Config, slope: real, intercept: real, bound: real)
    requires |window| >= 128 && bound == SkewBound(cfg) && -bound <= slope <= bound
    requires forall i :: 0 <= i < |window| ==> Residual(window[i], slope) == intercept
    requires LeastSquares.Spread(Points(window), LeastSquares.MeanX(Points(window))) > 0.0
    ensures SlopePerPacket(window, cfg) == slope
  {
    DriftIsALine(window, slope, intercept);
    LeastSquares.SlopeIsRecovered(Points(window), slope, intercept, bound);
  }

  /** Samples that share one number and one line share their skew. */
  lemma OneNumberIsFlat(window: seq<Sample>, cfg: Config, slope: real, intercept: real) returns (level: real)
    requires |window| >= 128
    requires forall i :: 0 <= i < |window| ==> Residual(window[i], slope) == intercept
    requires LeastSquares.Spread(Points(window), LeastSquares.MeanX(Points(window))) <= 0.0
    ensures SlopePerPacket(window, cfg) == 0.0
    ensures forall i :: 0 <= i < |window| ==> Residual(window[i], 0.0) == level
  {
    var points := Points(window);
    var x := LeastSquares.MeanX(points);
    LeastSquares.NoSpread(points, x);
    level := intercept + slope * x;
    forall i | 0 <= i < |window|
      ensures Residual(window[i], 0.0) == level
    {
      PointsAt(window, i);
      assert points[i].x == x && points[i] == PointOf(window[i]);
      assert Residual(window[i], slope) == intercept;
    }
  }

  /** Clock drift is not depth: a long window lying exactly on a line inside the
      skew clamp asks for the floor, whatever its length or offset. */
  lemma DriftAsksForTheFloor(window: seq<Sample>, cfg: Config, slope: real, intercept: real)
    requires cfg.Valid() && |window| >= 128
    requires forall i :: 0 <= i < |window| ==> Residual(window[i], slope) == intercept
    requires -SkewBound(cfg) <= slope <= SkewBound(cfg)
    ensures Desired(window, cfg) == cfg.minTarget
  {
    if LeastSquares.Spread(Points(window), LeastSquares.MeanX(Points(window))) > 0.0 {
      DriftIsFitted(window, cfg, slope, intercept, SkewBound(cfg));
      FlatAsksForTheFloor(window, cfg, slope, intercept);
    } else {
      var level := OneNumberIsFlat(window, cfg, slope, intercept);
      FlatAsksForTheFloor(window, cfg, 0.0, level);
    }
  }

  // ----- A cushion is shed slowly -------------------------------------------

  /** What a retarget weighs. */
  datatype Cushion = Cushion(target: nat, earned: bool, hold: nat, step: nat)

  function CushionOf(a: Adaptation): Cushion {
    Cushion(a.target, a.earned, a.holdProof, a.stepProof)
  }

  /** The path earned this cushion, or there is none to shed. */
  predicate Earned(c: Cushion, cfg: Config) {
    c.earned || c.target == cfg.minTarget
  }

  /** Over `n` arrivals from `c` to `d`: each packet shed was paid for by a whole
      step of arrivals, and the first only after a whole hold. */
  predicate FellSlowly(c: Cushion, d: Cushion, cfg: Config, n: nat) {
    && AtLeastOne(cfg.step) * (c.target - d.target) + d.step <= c.step + n
    && d.hold <= c.hold + n
    && (d.target < c.target ==> c.hold + n >= AtLeastOne(cfg.hold))
  }

  lemma FallsAddUp(c: Cushion, d: Cushion, e: Cushion, cfg: Config, n: nat, m: nat)
    requires FellSlowly(c, d, cfg, n) && FellSlowly(d, e, cfg, m)
    ensures FellSlowly(c, e, cfg, n + m)
  {
    var step := AtLeastOne(cfg.step);
    assert step * (c.target - e.target) == step * (c.target - d.target) + step * (d.target - e.target);
  }

  /** One arrival or fewer, and what it may do: nothing but count, rise, or shed one
      packet against both proofs. */
  lemma OneFallsSlowly(c: Cushion, d: Cushion, cfg: Config, n: nat)
    requires d.hold <= c.hold + n && d.step <= c.step + n
    requires d.target >= c.target
      || (d.target == c.target - 1 && d.step == 0
          && c.hold + n >= AtLeastOne(cfg.hold) && c.step + n >= AtLeastOne(cfg.step))
    ensures FellSlowly(c, d, cfg, n)
  {
    var step := AtLeastOne(cfg.step);
    if d.target < c.target {
      assert step * (c.target - d.target) == step;
    } else {
      assert step * (c.target - d.target) <= 0;
    }
  }

  lemma RetargetSheds(a: Adaptation, cfg: Config, started: bool)
    requires cfg.Valid() && Sound(a, cfg) && Earned(CushionOf(a), cfg)
    ensures var c, d := CushionOf(a), CushionOf(Retarget(a, cfg, started));
            && Earned(d, cfg) && d.hold <= c.hold && d.step <= c.step
            && (d.target < c.target ==>
                  && d.target == c.target - 1 && d.step == 0
                  && c.hold >= AtLeastOne(cfg.hold) && c.step >= AtLeastOne(cfg.step))
  {
  }

  lemma RecordOnlyRecords(a: Adaptation, cfg: Config, number: int, arrival: int) returns (c: Adaptation)
    requires cfg.Valid() && Sound(a, cfg)
    ensures c == RecordArrival(a, cfg, number, arrival)
    ensures Sound(c, cfg) && CushionOf(c) == CushionOf(a) && c.retargetProof == a.retargetProof
  {
    c := RecordArrival(a, cfg, number, arrival);
  }

  lemma CountedFallsSlowly(a: Adaptation, cfg: Config, started: bool) returns (b: Adaptation)
    requires cfg.Valid() && Sound(a, cfg) && Earned(CushionOf(a), cfg)
    ensures b == Counted(a, cfg, started)
    ensures Earned(CushionOf(b), cfg) && FellSlowly(CushionOf(a), CushionOf(b), cfg, 1)
  {
    b := Counted(a, cfg, started);
    RetargetSheds(a.(holdProof := a.holdProof + 1, stepProof := a.stepProof + 1, retargetProof := 0), cfg, started);
    OneFallsSlowly(CushionOf(a), CushionOf(b), cfg, 1);
  }

  lemma ArrivalFallsSlowly(
    a: Adaptation, cfg: Config, started: bool, number: int, recovered: bool, arrival: int) returns (b: Adaptation)
    requires cfg.Valid() && Sound(a, cfg) && Earned(CushionOf(a), cfg)
    ensures b == NoteArrival(a, cfg, started, number, recovered, arrival)
    ensures Earned(CushionOf(b), cfg) && FellSlowly(CushionOf(a), CushionOf(b), cfg, 1)
  {
    if recovered || (a.burstEnd.Some? && number < a.burstEnd.value) {
      b := a;
      OneFallsSlowly(CushionOf(a), CushionOf(b), cfg, 1);
    } else {
      var c := RecordOnlyRecords(a.(burstEnd := None), cfg, number, arrival);
      b := CountedFallsSlowly(c, cfg, started);
    }
  }

  lemma LateFallsSlowly(a: Adaptation, cfg: Config, behind: nat)
    requires Sound(a, cfg) && Earned(CushionOf(a), cfg)
    ensures Earned(CushionOf(Deepen(a, cfg, behind)), cfg)
    ensures FellSlowly(CushionOf(a), CushionOf(Deepen(a, cfg, behind)), cfg, 1)
  {
    OneFallsSlowly(CushionOf(a), CushionOf(Deepen(a, cfg, behind)), cfg, 1);
  }

  // ----- The controller's loops ---------------------------------------------

  lemma ExtremesStep(window: seq<Sample>, i: nat, slope: real)
    requires 0 < i < |window|
    ensures var low, high, residual :=
              Lowest(window[..i], slope), Highest(window[..i], slope), Residual(window[i], slope);
            && Lowest(window[..i + 1], slope) == (if low < residual then low else residual)
            && Highest(window[..i + 1], slope) == (if high > residual then high else residual)
  {
    assert window[..i + 1][..i] == window[..i];
  }

  /** The detrended spread in one pass. */
  method Extremes(window: seq<Sample>, slope: real) returns (low: real, high: real)
    requires window != []
    ensures low == Lowest(window, slope) && high == Highest(window, slope)
  {
    low, high := Residual(window[0], slope), Residual(window[0], slope);
    for i := 1 to |window|
      invariant low == Lowest(window[..i], slope) && high == Highest(window[..i], slope)
    {
      ExtremesStep(window, i, slope);
      var residual := Residual(window[i], slope);
      if residual < low { low := residual; }
      if residual > high { high := residual; }
    }
    assert window[..|window|] == window;
  }

  method FitDrift(window: seq<Sample>, cfg: Config) returns (slope: real)
    requires window != []
    ensures slope == SlopePerPacket(window, cfg)
  {
    slope := 0.0;
    if |window| >= 128 {
      slope := LeastSquares.FitSlope(Points(window), SkewBound(cfg));
    }
  }

  method DesiredPackets(window: seq<Sample>, cfg: Config) returns (desired: nat)
    requires window != [] && cfg.duration > 0
    ensures desired == Desired(window, cfg)
  {
    var slope := FitDrift(window, cfg);
    var low, high := Extremes(window, slope);
    var spread := Ceiling(high - low);
    var needed := PacketsFor(spread, cfg.duration);
    desired := if needed > cfg.maxTarget then cfg.maxTarget
               else if needed < cfg.minTarget then cfg.minTarget else needed;
  }

  method Steer(a: Adaptation, cfg: Config, started: bool) returns (b: Adaptation)
    requires cfg.duration > 0
    ensures b == Retarget(a, cfg, started)
  {
    b := a;
    if |a.window| < 16 || !started { return; }
    var desired := DesiredPackets(a.window, cfg);
    if desired > b.target {
      b := b.(target := desired, earned := true, holdProof := 0, stepProof := 0);
    } else if desired < b.target && !b.earned {
      b := b.(target := desired);
    } else if desired < b.target && b.holdProof >= AtLeastOne(cfg.hold) && b.stepProof >= AtLeastOne(cfg.step) {
      b := b.(target := b.target - 1, stepProof := 0);
      if b.target == cfg.minTarget { b := b.(earned := false); }
    }
  }

  method LeastSkew(window: seq<Sample>) returns (low: int)
    requires window != []
    ensures low == LowestSkew(window)
  {
    low := window[0].skew;
    for i := 1 to |window|
      invariant low == LowestSkew(window[..i])
    {
      assert window[..i + 1][..i] == window[..i];
      if window[i].skew < low { low := window[i].skew; }
    }
    assert window[..|window|] == window;
  }

  method ShiftAll(window: seq<Sample>, low: int) returns (shifted: seq<Sample>)
    ensures shifted == Shift(window, low)
  {
    shifted := window;
    for i := 0 to |window|
      invariant shifted == Shift(window[..i], low) + window[i..]
    {
      shifted := shifted[i := shifted[i].(skew := shifted[i].skew - low)];
      assert window[i..] == [window[i]] + window[i + 1..];
      assert Shift(window[..i + 1], low) == Shift(window[..i], low) + [window[i].(skew := window[i].skew - low)];
    }
    assert window[..|window|] == window;
  }

  method RecordSample(a: Adaptation, cfg: Config, anchor: Sample, sample: Sample) returns (b: Adaptation)
    requires a.cursor < cfg.window
    ensures b == Record(a, cfg, anchor, sample)
  {
    b := a.(anchor := Some(anchor));
    if |b.window| < cfg.window {
      b := b.(window := b.window + [sample]);
    } else {
      b := b.(window := b.window[b.cursor := sample], cursor := (b.cursor + 1) % |b.window|);
      if b.cursor == 0 {
        var low := LeastSkew(b.window);
        var shifted := ShiftAll(b.window, low);
        b := b.(anchor := Some(anchor.(skew := anchor.skew + low)), window := shifted);
      }
    }
  }

  method TakeSample(a: Adaptation, cfg: Config, number: int, arrival: int) returns (b: Adaptation)
    requires a.cursor < cfg.window
    ensures b == RecordArrival(a, cfg, number, arrival)
  {
    var anchor := if a.anchor.Some? then a.anchor.value else Sample(number, arrival);
    var delta := number - anchor.number;
    b := RecordSample(a, cfg, anchor, Sample(delta, arrival - anchor.skew - delta * cfg.duration));
  }

  /** One arrival through the controller's loops. */
  method NoteFresh(a: Adaptation, cfg: Config, started: bool, number: int, recovered: bool, arrival: int)
    returns (b: Adaptation)
    requires cfg.Valid() && Sound(a, cfg)
    ensures b == NoteArrival(a, cfg, started, number, recovered, arrival)
  {
    b := a;
    if recovered { return; }
    if b.burstEnd.Some? {
      if number < b.burstEnd.value { return; }
      b := b.(burstEnd := None);
    }
    b := TakeSample(b, cfg, number, arrival);
    b := b.(holdProof := b.holdProof + 1, stepProof := b.stepProof + 1, retargetProof := b.retargetProof + 1);
    if b.retargetProof < AtLeastOne(cfg.cadence) { return; }
    b := Steer(b.(retargetProof := 0), cfg, started);
  }
}
