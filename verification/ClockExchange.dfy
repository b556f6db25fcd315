/** From honest exchanges to an honest clock: the echo book, the window and the
    offset-only fit in one run. */
module ClockExchange {
  import opened Wrappers
  import opened ClientBeaconEcho
  import opened ClientHostClock
  import opened ClockBounds

  /** The echo this mirror answers, as the book would look it up. */
  function Mirrored(b: Book, e: Event): Option<Pending> {
    if e.beacon.lastEcho.None? then None
    else Find(Remember(b.pending, Pending(e.beacon.seqNo, e.beacon.hostSend, e.t2, e.t3)), e.beacon.lastEcho.value.seqNo)
  }

  /** The mirror, if it closes a sample at all, reports a true exchange with a host
      whose clock is `truth` behind ours. */
  ghost predicate TrueMirror(b: Book, e: Event, truth: int) {
    Mirrored(b, e).Some? && Answer(b, e.beacon, e.t2, e.t3).1.Some? ==>
      exists out: int, back: int :: Honest(Mirrored(b, e).value, e.beacon.lastEcho.value, truth, out, back)
  }

  /** An honest mirror, verbatim and within the plausible round trip, closes its
      sample: the two legs as round trip, and an offset within half of it. */
  lemma HonestMirrorCloses(b: Book, e: Event, truth: int, out: int, back: int)
    requires Mirrored(b, e).Some?
    requires Honest(Mirrored(b, e).value, e.beacon.lastEcho.value, truth, out, back)
    requires e.beacon.lastEcho.value.clientSend == Mirrored(b, e).value.t3 && out + back <= MAX_RTT
    ensures var s := Answer(b, e.beacon, e.t2, e.t3).1;
      && s.Some? && s.value.seqNo == e.beacon.lastEcho.value.seqNo
      && s.value.rtt == out + back && s.value.measuredAt == Mirrored(b, e).value.t2
      && -s.value.rtt - 1 <= 2 * (s.value.offset - truth) <= s.value.rtt + 1
  {
    HonestSampleIsClose(Mirrored(b, e).value, e.beacon.lastEcho.value, truth, out, back);
  }

  lemma ClosedIsHonest(b: Book, e: Event, truth: int)
    requires TrueMirror(b, e, truth) && Answer(b, e.beacon, e.t2, e.t3).1.Some?
    ensures var s := Answer(b, e.beacon, e.t2, e.t3).1.value;
      -s.rtt - 1 <= 2 * (s.offset - truth) <= s.rtt + 1
  {
    var p, m := Mirrored(b, e).value, e.beacon.lastEcho.value;
    var out: int, back: int :| Honest(p, m, truth, out, back);
    HonestSampleIsClose(p, m, truth, out, back);
  }

  // ----- Runs ---------------------------------------------------------------

  /** The samples a run of beacons closes, in order. */
  function Samples(b: Book, events: seq<Event>): seq<Sample>
    decreases |events|
  {
    if events == [] then []
    else
      var (c, s) := Answer(b, events[0].beacon, events[0].t2, events[0].t3);
      (if s.Some? then [s.value] else []) + Samples(c, events[1..])
  }

  ghost predicate TrueMirrors(b: Book, events: seq<Event>, truth: int)
    decreases |events|
  {
    events == [] ||
    (TrueMirror(b, events[0], truth)
     && TrueMirrors(Answer(b, events[0].beacon, events[0].t2, events[0].t3).0, events[1..], truth))
  }

  lemma {:induction false} SamplesAreHonest(b: Book, events: seq<Event>, truth: int)
    requires TrueMirrors(b, events, truth)
    ensures AllHonest(Samples(b, events), truth)
    decreases |events|
  {
    if events != [] {
      var (c, s) := Answer(b, events[0].beacon, events[0].t2, events[0].t3);
      SamplesAreHonest(c, events[1..], truth);
      if s.Some? { ClosedIsHonest(b, events[0], truth); }
    }
  }

  lemma {:induction false} SinceHonest(samples: seq<Sample>, horizon: int, truth: int)
    requires AllHonest(samples, truth)
    ensures AllHonest(Since(samples, horizon), truth)
  {
    if samples != [] {
      assert AllHonest(samples[1..], truth);
      SinceHonest(samples[1..], horizon, truth);
    }
  }

  lemma IngestHonest(c: Clock, s: Sample, cfg: Config, truth: int)
    requires AllHonest(c.window + [s], truth)
    ensures AllHonest(Ingest(c, s, cfg).window, truth)
  {
    assert forall i :: 0 <= i < |c.window| ==> (c.window + [s])[i] == c.window[i];
    assert AllHonest(c.window, truth);
    if Plausible(s) {
      var kept := ClientHostClock.Newest(c.window + [s], cfg.maxSamples);
      assert AllHonest(kept, truth);
      var newest := if s.measuredAt > c.newest then s.measuredAt else c.newest;
      SinceHonest(kept, newest - cfg.window, truth);
    }
  }

  lemma {:induction false} WindowIsHonest(c: Clock, samples: seq<Sample>, cfg: Config, truth: int)
    requires AllHonest(c.window, truth) && AllHonest(samples, truth)
    ensures AllHonest(IngestAll(c, samples, cfg).window, truth)
    decreases |samples|
  {
    if samples != [] {
      assert AllHonest(c.window + [samples[0]], truth);
      IngestHonest(c, samples[0], cfg, truth);
      assert AllHonest(samples[1..], truth);
      WindowIsHonest(Ingest(c, samples[0], cfg), samples[1..], cfg, truth);
    }
  }

  /** From a fresh book and a fresh clock: over any run of beacons, whatever mirrors
      are refused, so long as those that close report true exchanges, an offset-only fit
      of the window is within half of (its least round trip plus the gate) of the
      true offset, up to rounding. */
  lemma HonestRunFitsClose(events: seq<Event>, cfg: Config, truth: int)
    requires cfg.Valid() && TrueMirrors(Book([], 0), events, truth)
    ensures var window := IngestAll(Clock([], 0), Samples(Book([], 0), events), cfg).window;
      window != [] && Fit(window, cfg).Some? && Fit(window, cfg).value.skew == 0.0 ==>
        var slack := MinRtt(window) + cfg.rttGate + 2;
        -slack <= 2 * (Fit(window, cfg).value.offset - truth) <= slack
  {
    SamplesAreHonest(Book([], 0), events, truth);
    var samples := Samples(Book([], 0), events);
    WindowIsHonest(Clock([], 0), samples, cfg, truth);
    var window := IngestAll(Clock([], 0), samples, cfg).window;
    if window != [] && Fit(window, cfg).Some? && Fit(window, cfg).value.skew == 0.0 {
      OffsetOnlyFitIsClose(window, cfg, truth);
    }
  }
}
