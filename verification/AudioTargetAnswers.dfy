/** What one arrival makes of the delay target. The window's drift is fitted by the
    line that misses it least; the target wanted is the least depth that covers what
    is left of the skew; and the window keeps each sample's skew when it folds its
    minimum into the anchor. */
module AudioTargetAnswers {
  import opened Wrappers
  import opened AudioTarget
  import opened LeastSquares
  import opened LeastSquaresBest

  // ----- The drift ----------------------------------------------------------

  /** Under 128 samples no drift is fitted; from there on no slope within the clamp, and
      no intercept, misses the samples by less than the one fitted. */
  lemma DriftIsBest(window: seq<Sample>, cfg: Config, t: real, j: real) returns (s: real, i: real)
    requires cfg.Valid() && window != [] && -SkewBound(cfg) <= t <= SkewBound(cfg)
    ensures s == SlopePerPacket(window, cfg) && (|window| < 128 ==> s == 0.0)
    ensures |window| >= 128 ==> -SkewBound(cfg) <= s <= SkewBound(cfg)
    ensures |window| >= 128 ==>
      Miss(Points(window), t, j) >= Miss(Points(window), s, i) + Apart(Points(window), t, j, s, i)
  {
    s, i := SlopePerPacket(window, cfg), 0.0;
    if |window| >= 128 {
      i := MeanY(Points(window)) - s * MeanX(Points(window));
      SlopeIsBest(Points(window), SkewBound(cfg), t, j, s, i);
    }
  }

  // ----- The depth wanted ---------------------------------------------------

  /** `n` packets cover the window: no two samples' skews, the drift taken out, differ by
      more than all but one of them last. */
  ghost predicate Covers(window: seq<Sample>, slope: real, n: int, duration: int) {
    forall i, j :: 0 <= i < |window| && 0 <= j < |window| ==>
      Residual(window[i], slope) - Residual(window[j], slope) <= ((n - 1) * duration) as real
  }

  lemma CoversIff(window: seq<Sample>, slope: real, n: int, duration: int)
    requires window != []
    ensures Covers(window, slope, n, duration)
            <==> Highest(window, slope) - Lowest(window, slope) <= ((n - 1) * duration) as real
  {
    var i :| 0 <= i < |window| && Highest(window, slope) == Residual(window[i], slope);
    var j :| 0 <= j < |window| && Lowest(window, slope) == Residual(window[j], slope);
  }

  lemma Times(a: int, b: int, d: int)
    requires a <= b && d > 0
    ensures a * d <= b * d
  {}

  lemma Quotient(x: int, d: int) returns (q: int)
    requires d > 0
    ensures q == x / d && q * d <= x < q * d + d
  {
    q := x / d;
    assert q * d + x % d == x;
  }

  lemma NextMultiple(q: int, d: int)
    ensures (q + 1) * d == q * d + d
  {}

  lemma PacketsForIs(spread: int, duration: int, n: int)
    requires duration > 0
    ensures PacketsFor(spread, duration) <= n <==> spread <= (n - 1) * duration
  {
    var q := Quotient(spread + duration - 1, duration);
    if q <= n - 1 {
      Times(q, n - 1, duration);
    } else {
      Times(n, q, duration);
      NextMultiple(n - 1, duration);
    }
  }

  /** The depth wanted is the least within the bounds that covers the window, and the
      ceiling when none does. */
  lemma DesiredIsLeast(window: seq<Sample>, cfg: Config, n: nat)
    requires cfg.Valid() && window != [] && cfg.minTarget <= n <= cfg.maxTarget
    ensures cfg.minTarget <= Desired(window, cfg) <= cfg.maxTarget
    ensures Desired(window, cfg) <= n
            <==> n == cfg.maxTarget || Covers(window, SlopePerPacket(window, cfg), n, cfg.duration)
  {
    var slope := SlopePerPacket(window, cfg);
    var gap := Highest(window, slope) - Lowest(window, slope);
    CoversIff(window, slope, n, cfg.duration);
    CeilingIsLeast(gap, (n - 1) * cfg.duration);
    PacketsForIs(Ceiling(gap), cfg.duration, n);
  }

  // ----- The target ---------------------------------------------------------

  /** Both proofs stand: the hold since the last rise, and the step since the last shed. */
  predicate Proven(a: Adaptation, cfg: Config) {
    && a.holdProof >= (if cfg.hold < 1 then 1 else cfg.hold)
    && a.stepProof >= (if cfg.step < 1 then 1 else cfg.step)
  }

  /** A retarget rises at once to what is wanted, falls at once from what the path never
      earned, and sheds an earned cushion a packet at a time against both proofs; before
      playout, and under sixteen samples, it does nothing. */
  lemma RetargetAnswers(a: Adaptation, cfg: Config, started: bool)
    requires cfg.Valid() && Sound(a, cfg)
    ensures (|a.window| < 16 || !started) ==> Retarget(a, cfg, started) == a
    ensures |a.window| >= 16 && started ==>
      var want := Desired(a.window, cfg);
      var rises, sheds := want > a.target, want < a.target && a.earned && Proven(a, cfg);
      Retarget(a, cfg, started)
      == a.(target := if rises || (want < a.target && !a.earned) then want
                      else if sheds then a.target - 1 else a.target,
            earned := rises || (a.earned && !(sheds && a.target - 1 == cfg.minTarget)),
            holdProof := if rises then 0 else a.holdProof,
            stepProof := if rises || sheds then 0 else a.stepProof)
  {
  }

  // ----- The window ---------------------------------------------------------

  /** The samples with the arrival's, before any folding: at the end while there is room,
      and else in place of the one at the cursor. */
  function Taken(a: Adaptation, cfg: Config, s: Sample): seq<Sample>
    requires a.cursor < cfg.window
  {
    if |a.window| < cfg.window then a.window + [s] else a.window[a.cursor := s]
  }

  /** The same samples, each skew less `low`. */
  predicate Folded(from: seq<Sample>, to: seq<Sample>, low: int) {
    |to| == |from| && forall i :: 0 <= i < |from| ==> to[i] == Sample(from[i].number, from[i].skew - low)
  }

  /** The window is full and its cursor at the end. */
  predicate Wraps(a: Adaptation, cfg: Config) {
    |a.window| >= cfg.window && a.cursor + 1 == |a.window|
  }

  /** The arrival by its skew off the lattice through the origin. */
  function SkewOf(origin: Sample, cfg: Config, number: int, arrival: int): Sample {
    Sample(number - origin.number, arrival - origin.skew - (number - origin.number) * cfg.duration)
  }

  /** An arrival is recorded off the anchor's lattice, its own if there is no anchor. A
      full window's cursor moves on, and as it wraps the least skew moves from the
      samples to the anchor: what a sample and the anchor make together stays. */
  lemma RecordAnswers(a: Adaptation, cfg: Config, number: int, arrival: int)
      returns (origin: Sample, s: Sample, b: Adaptation, low: int)
    requires cfg.Valid() && Sound(a, cfg)
    ensures origin == (if a.anchor.Some? then a.anchor.value else Sample(number, arrival))
    ensures s == SkewOf(origin, cfg, number, arrival) && b == RecordArrival(a, cfg, number, arrival)
    ensures b == a.(anchor := Some(Sample(origin.number, origin.skew + low)), window := b.window,
                    cursor := if |a.window| < cfg.window then a.cursor else if Wraps(a, cfg) then 0 else a.cursor + 1)
    ensures Folded(Taken(a, cfg, s), b.window, low)
    ensures if Wraps(a, cfg) then IsLeastSkew(low, Taken(a, cfg, s)) else low == 0
  {
    origin := if a.anchor.Some? then a.anchor.value else Sample(number, arrival);
    s := SkewOf(origin, cfg, number, arrival);
    low := RecordIs(a, cfg, origin, s);
    b := Record(a, cfg, origin, s);
  }

  lemma RecordIs(a: Adaptation, cfg: Config, origin: Sample, s: Sample) returns (low: int)
    requires cfg.Valid() && Sound(a, cfg)
    ensures var b := Record(a, cfg, origin, s);
            && b == a.(anchor := Some(Sample(origin.number, origin.skew + low)), window := b.window,
                       cursor := if |a.window| < cfg.window then a.cursor
                                 else if Wraps(a, cfg) then 0 else a.cursor + 1)
            && Folded(Taken(a, cfg, s), b.window, low)
    ensures if Wraps(a, cfg) then IsLeastSkew(low, Taken(a, cfg, s)) else low == 0
  {
    if |a.window| < cfg.window {
      low := 0;
    } else {
      low := FullRecordIs(a, cfg, origin, s);
    }
  }

  lemma FullRecordIs(a: Adaptation, cfg: Config, origin: Sample, s: Sample) returns (low: int)
    requires cfg.Valid() && Sound(a, cfg) && |a.window| == cfg.window
    ensures var b := Record(a, cfg, origin, s);
            && b == a.(anchor := Some(Sample(origin.number, origin.skew + low)), window := b.window,
                       cursor := if Wraps(a, cfg) then 0 else a.cursor + 1)
            && Folded(a.window[a.cursor := s], b.window, low)
    ensures if Wraps(a, cfg) then IsLeastSkew(low, a.window[a.cursor := s]) else low == 0
  {
    var filled := a.window[a.cursor := s];
    CursorMoves(a.cursor, |filled|);
    if Wraps(a, cfg) {
      low := LowestSkew(filled);
      LowestSkewIs(filled);
    } else {
      low := 0;
    }
  }

  lemma CursorMoves(cursor: nat, size: nat)
    requires cursor < size
    ensures (cursor + 1) % size == if cursor + 1 == size then 0 else cursor + 1
  {}

  predicate IsLeastSkew(low: int, window: seq<Sample>) {
    && (forall i :: 0 <= i < |window| ==> low <= window[i].skew)
    && exists i :: 0 <= i < |window| && window[i].skew == low
  }

  lemma {:induction false} LowestSkewIs(window: seq<Sample>)
    requires window != []
    ensures IsLeastSkew(LowestSkew(window), window)
  {
    if |window| > 1 {
      var init := window[..|window| - 1];
      LowestSkewIs(init);
      var i :| 0 <= i < |init| && init[i].skew == LowestSkew(init);
      assert window[i].skew == LowestSkew(init);
      assert forall k :: 0 <= k < |init| ==> window[k] == init[k];
    }
  }

  // ----- One arrival --------------------------------------------------------

  /** A recovered packet, and one within a wake burst, says nothing of the path. Any other
      is recorded, ends the burst and counts to both proofs, and each cadence of them
      retargets. */
  lemma ArrivalAnswers(a: Adaptation, cfg: Config, started: bool, number: int, recovered: bool, arrival: int)
    requires cfg.Valid() && Sound(a, cfg)
    ensures recovered || (a.burstEnd.Some? && number < a.burstEnd.value) ==>
      NoteArrival(a, cfg, started, number, recovered, arrival) == a
    ensures !recovered && (a.burstEnd.None? || number >= a.burstEnd.value) ==>
      var r := RecordArrival(a.(burstEnd := None), cfg, number, arrival);
      var due := a.retargetProof + 1 >= (if cfg.cadence < 1 then 1 else cfg.cadence);
      var c := r.(holdProof := a.holdProof + 1, stepProof := a.stepProof + 1,
                  retargetProof := if due then 0 else a.retargetProof + 1);
      NoteArrival(a, cfg, started, number, recovered, arrival) == if due then Retarget(c, cfg, started) else c
  {
    var r := RecordOnlyRecords(a.(burstEnd := None), cfg, number, arrival);
  }
}
