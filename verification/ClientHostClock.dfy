/** The client's model of the host clock: a sliding window of samples, a min-RTT
    gate, a clamped regression, and the map it gives. Reals are exact here. */
module ClientHostClock {
  import opened Wrappers
  import opened ClientBeaconEcho
  import opened LeastSquares

  datatype Config = Config(window: nat, rttGate: int, minimumForSkew: nat, maxSamples: nat, maxSkew: real)
  {
    /** What the initializer clamps to. */
    predicate Valid() {
      maxSamples >= 1 && maxSkew >= 0.0 && rttGate >= 0
    }
  }

  // ----- The window ---------------------------------------------------------

  datatype Clock = Clock(window: seq<Sample>, newest: int)

  function Newest(suffix: seq<Sample>, count: nat): seq<Sample> {
    if |suffix| > count then suffix[|suffix| - count..] else suffix
  }

  function Since(samples: seq<Sample>, horizon: int): seq<Sample> {
    if samples == [] then []
    else (if samples[0].measuredAt < horizon then [] else [samples[0]]) + Since(samples[1..], horizon)
  }

  /** Feeds one raw sample; an implausible one is dropped. */
  function Ingest(c: Clock, s: Sample, cfg: Config): Clock {
    if !Plausible(s) then c
    else
      var kept := Newest(c.window + [s], cfg.maxSamples);
      var newest := if s.measuredAt > c.newest then s.measuredAt else c.newest;
      Clock(if newest > cfg.window then Since(kept, newest - cfg.window) else kept, newest)
  }

  // ----- The fit ------------------------------------------------------------

  function MinRtt(samples: seq<Sample>): int
    requires samples != []
  {
    var last := samples[|samples| - 1].rtt;
    if |samples| == 1 then last
    else
      var rest := MinRtt(samples[..|samples| - 1]);
      if last < rest then last else rest
  }

  function Gated(samples: seq<Sample>, gate: int): seq<Sample> {
    if samples == [] then []
    else Gated(samples[..|samples| - 1], gate)
         + if samples[|samples| - 1].rtt <= gate then [samples[|samples| - 1]] else []
  }

  /** The accepted sample measured last. */
  function Anchor(samples: seq<Sample>): Sample
    requires samples != []
  {
    var last := samples[|samples| - 1];
    if |samples| == 1 then last
    else
      var rest := Anchor(samples[..|samples| - 1]);
      if rest.measuredAt < last.measuredAt then last else rest
  }

  /** One sample centred on the anchor: elapsed time against offset drift. */
  function CentredPoint(s: Sample, anchor: Sample): Point {
    Point((s.measuredAt - anchor.measuredAt) as real, (s.offset - anchor.offset) as real)
  }

  function Centred(samples: seq<Sample>, anchor: Sample): (points: seq<Point>)
    ensures |points| == |samples|
  {
    if samples == [] then []
    else Centred(samples[..|samples| - 1], anchor) + [CentredPoint(samples[|samples| - 1], anchor)]
  }

  /** To the nearest integer, halves away from zero. */
  function Rounded(x: real): int {
    if x >= 0.0 then (x + 0.5).Floor else -((-x + 0.5).Floor)
  }

  datatype Estimate = Estimate(
    offset: int, anchor: int, skew: real, residualMax: real, accepted: nat, windowed: nat, minRtt: int)

  function SkewOf(points: seq<Point>, cfg: Config): real
    requires points != []
  {
    if |points| >= cfg.minimumForSkew then Slope(points, cfg.maxSkew) else 0.0
  }

  function Intercept(points: seq<Point>, skew: real): real
    requires points != []
  {
    MeanY(points) - skew * MeanX(points)
  }

  function Abs(x: real): real {
    if x < 0.0 then -x else x
  }

  function Deviation(p: Point, skew: real, intercept: real): real {
    Abs(p.y - (intercept + skew * p.x))
  }

  /** The worst deviation of the points from the line. */
  function WorstResidual(points: seq<Point>, skew: real, intercept: real): real {
    if points == [] then 0.0
    else
      var rest := WorstResidual(points[..|points| - 1], skew, intercept);
      var r := Deviation(points[|points| - 1], skew, intercept);
      if rest < r then r else rest
  }

  function FitAccepted(samples: seq<Sample>, windowed: nat, minRtt: int, cfg: Config): Estimate
    requires samples != []
  {
    var anchor := Anchor(samples);
    var points := Centred(samples, anchor);
    var skew := SkewOf(points, cfg);
    var intercept := Intercept(points, skew);
    Estimate(anchor.offset + Rounded(intercept), anchor.measuredAt, skew,
             WorstResidual(points, skew, intercept), |samples|, windowed, minRtt)
  }

  function Fit(samples: seq<Sample>, cfg: Config): Option<Estimate> {
    if samples == [] then None
    else
      var minRtt := MinRtt(samples);
      var accepted := Gated(samples, minRtt + cfg.rttGate);
      if accepted == [] then None else Some(FitAccepted(accepted, |samples|, minRtt, cfg))
  }

  // ----- The map ------------------------------------------------------------

  /** What the map adds for the skew since the anchor. */
  function Correction(e: Estimate, host: int): real
    requires e.skew != 1.0
  {
    e.skew * (host + e.offset - e.anchor) as real / (1.0 - e.skew)
  }

  const I64_MAX: int := 0x7FFF_FFFF_FFFF_FFFF
  const I64_MIN: int := -0x8000_0000_0000_0000

  /** A skew of exactly one leaves nothing to divide by: the infinite correction
      saturates, and none stays none. */
  function Divergent(elapsed: int): int {
    if elapsed > 0 then I64_MAX else if elapsed < 0 then I64_MIN else 0
  }

  /** Host time to the client instant it predicts. */
  function Map(e: Estimate, host: int): int {
    host + e.offset
    + if e.skew == 1.0 then Divergent(host + e.offset - e.anchor) else Rounded(Correction(e, host))
  }
}
