/** The host clock as it runs: the window is updated in place, the fit is cached
    until the next sample, and its passes over the samples are loops. */
module HostClockModel {
  import opened Wrappers
  import opened ClientBeaconEcho
  import opened ClientHostClock
  import opened LeastSquares

  /** The window's least round trip. */
  method LeastRtt(samples: seq<Sample>) returns (least: int)
    requires samples != []
    ensures least == MinRtt(samples)
  {
    least := samples[0].rtt;
    var i := 1;
    while i < |samples|
      invariant 1 <= i <= |samples|
      invariant least == MinRtt(samples[..i])
    {
      assert samples[..i + 1][..i] == samples[..i];
      if samples[i].rtt < least { least := samples[i].rtt; }
      i := i + 1;
    }
    assert samples[..i] == samples;
  }

  method Accept(samples: seq<Sample>, gate: int) returns (accepted: seq<Sample>)
    ensures accepted == Gated(samples, gate)
  {
    accepted := [];
    var i := 0;
    while i < |samples|
      invariant 0 <= i <= |samples|
      invariant accepted == Gated(samples[..i], gate)
    {
      assert samples[..i + 1][..i] == samples[..i];
      if samples[i].rtt <= gate { accepted := accepted + [samples[i]]; }
      i := i + 1;
    }
    assert samples[..i] == samples;
  }

  method FindAnchor(samples: seq<Sample>) returns (anchor: Sample)
    requires samples != []
    ensures anchor == Anchor(samples)
  {
    anchor := samples[0];
    var i := 1;
    while i < |samples|
      invariant 1 <= i <= |samples|
      invariant anchor == Anchor(samples[..i])
    {
      assert samples[..i + 1][..i] == samples[..i];
      if anchor.measuredAt < samples[i].measuredAt { anchor := samples[i]; }
      i := i + 1;
    }
    assert samples[..i] == samples;
  }

  method Centre(samples: seq<Sample>, anchor: Sample) returns (points: seq<Point>)
    ensures points == Centred(samples, anchor)
  {
    points := [];
    var i := 0;
    while i < |samples|
      invariant 0 <= i <= |samples|
      invariant points == Centred(samples[..i], anchor)
    {
      assert samples[..i + 1][..i] == samples[..i];
      points := points + [CentredPoint(samples[i], anchor)];
      i := i + 1;
    }
    assert samples[..i] == samples;
  }

  method FindWorst(points: seq<Point>, skew: real, intercept: real) returns (worst: real)
    ensures worst == WorstResidual(points, skew, intercept)
  {
    worst := 0.0;
    var i := 0;
    while i < |points|
      invariant 0 <= i <= |points|
      invariant worst == WorstResidual(points[..i], skew, intercept)
    {
      assert points[..i + 1][..i] == points[..i];
      var r := Deviation(points[i], skew, intercept);
      if worst < r { worst := r; }
      i := i + 1;
    }
    assert points[..i] == points;
  }

  /** The regression over the accepted samples, centred on their anchor. */
  method Regress(accepted: seq<Sample>, windowed: nat, minRtt: int, cfg: Config) returns (e: Estimate)
    requires accepted != []
    ensures e == FitAccepted(accepted, windowed, minRtt, cfg)
  {
    var anchor := FindAnchor(accepted);
    var points := Centre(accepted, anchor);
    var skew := ClampedSkew(points, cfg);
    var intercept := Intercept(points, skew);
    var worst := FindWorst(points, skew, intercept);
    e := Estimate(anchor.offset + Rounded(intercept), anchor.measuredAt, skew, worst, |accepted|, windowed, minRtt);
  }

  method ClampedSkew(points: seq<Point>, cfg: Config) returns (skew: real)
    requires points != []
    ensures skew == SkewOf(points, cfg)
  {
    skew := 0.0;
    if |points| >= cfg.minimumForSkew { skew := FitSlope(points, cfg.maxSkew); }
  }

  method FitWindow(samples: seq<Sample>, cfg: Config) returns (fit: Option<Estimate>)
    ensures fit == Fit(samples, cfg)
  {
    if samples == [] { return None; }
    var minRtt := LeastRtt(samples);
    var accepted := Accept(samples, minRtt + cfg.rttGate);
    if accepted == [] { return None; }
    var e := Regress(accepted, |samples|, minRtt, cfg);
    return Some(e);
  }

  class HostClock {
    const config: Config
    var window: seq<Sample>
    var newest: int
    /** None when stale; otherwise the fit of the current window. */
    var cached: Option<Option<Estimate>>

    ghost function State(): Clock
      reads this
    {
      Clock(window, newest)
    }

    /** The cache is never stale. */
    ghost predicate Valid()
      reads this
    {
      cached.Some? ==> cached.value == Fit(window, config)
    }

    constructor (cfg: Config)
      ensures Valid() && config == cfg && State() == Clock([], 0)
    {
      config, window, newest, cached := cfg, [], 0, None;
    }

    method IngestSample(s: Sample)
      requires Valid()
      modifies this
      ensures Valid() && State() == Ingest(old(State()), s, config)
    {
      if !Plausible(s) { return; }
      cached := None;
      Absorb(s);
    }

    method Absorb(s: Sample)
      requires Plausible(s)
      modifies this`window, this`newest
      ensures State() == Ingest(old(State()), s, config)
    {
      var kept := window + [s];
      if |kept| > config.maxSamples { kept := kept[|kept| - config.maxSamples..]; }
      if s.measuredAt > newest { newest := s.measuredAt; }
      if newest > config.window { kept := Since(kept, newest - config.window); }
      window := kept;
    }

    /** The current fit, computed once per window. */
    method CurrentEstimate() returns (fit: Option<Estimate>)
      requires Valid()
      modifies this`cached
      ensures Valid() && fit == Fit(window, config)
    {
      if cached.Some? { return cached.value; }
      fit := FitWindow(window, config);
      cached := Some(fit);
    }

    /** Maps one host instant through the current fit, when there is one. */
    method MapHost(host: int) returns (client: Option<int>)
      requires Valid()
      modifies this`cached
      ensures Valid()
      ensures client == if Fit(window, config).None? then None else Some(Map(Fit(window, config).value, host))
    {
      var fit := CurrentEstimate();
      if fit.None? { return None; }
      return Some(Map(fit.value, host));
    }
  }
}
