/** The feedback report's content and its idle cadence. Times are microseconds of
    one client clock. */
module ClientFeedbackReporter {
  import opened Wrappers

  const PENDING_NACK_CAP: nat := 24
  const MAX_NACK_ENTRIES: nat := 6
  const MAX_SAMPLES: nat := 112
  const MAX_DELTA: nat := 0xFF_FFFF
  const HEARTBEAT: nat := 2_000_000
  const FIRST_ECHO: nat := 80_000
  const SECOND_ECHO: nat := 200_000
  /** The slowest cadence a shell may run. */
  const SLOWEST_BEAT: nat := 50_000

  type Ledgers = seq<(nat, nat)>

  datatype Reporter = Reporter(
    pendingNacks: seq<int>, lastReportAt: Option<nat>, lastNewsAt: Option<nat>, lastLedgers: Ledgers,
    nacksSent: nat, samplesReported: nat, samplesDecimated: nat)

  function Fresh(): Reporter {
    Reporter([], None, None, [], 0, 0, 0)
  }

  function Capped(n: nat, cap: nat): nat {
    if n < cap then n else cap
  }

  /** Past the cap the oldest entries drop. */
  function Enqueue(r: Reporter, entries: seq<int>): Reporter {
    var all := r.pendingNacks + entries;
    r.(pendingNacks := if |all| > PENDING_NACK_CAP then all[|all| - PENDING_NACK_CAP..] else all)
  }

  predicate EchoAt(r: Reporter, offset: nat, now: nat) {
    r.lastNewsAt.Some? && r.lastReportAt.Some?
    && now >= r.lastNewsAt.value + offset && r.lastReportAt.value < r.lastNewsAt.value + offset
  }

  predicate HasNews(r: Reporter, ledgers: Ledgers, arrivals: seq<nat>) {
    arrivals != [] || r.pendingNacks != [] || ledgers != r.lastLedgers
  }

  predicate IsDue(r: Reporter, ledgers: Ledgers, arrivals: seq<nat>, idleFeedback: bool, now: nat) {
    !idleFeedback || r.lastReportAt.None?
    || HasNews(r, ledgers, arrivals) || EchoAt(r, FIRST_ECHO, now) || EchoAt(r, SECOND_ECHO, now)
    || now - r.lastReportAt.value >= HEARTBEAT
  }

  // ----- Arrivals to samples ------------------------------------------------

  function Least(s: seq<nat>): (m: nat)
    requires s != []
    ensures m in s && forall i :: 0 <= i < |s| ==> m <= s[i]
  {
    if |s| == 1 then s[0]
    else
      var rest := Least(s[1..]);
      if s[0] < rest then s[0] else rest
  }

  /** Deltas from the earliest arrival; those past the field's width drop out. */
  function Deltas(arrivals: seq<nat>, base: nat): (r: seq<nat>)
    requires forall i :: 0 <= i < |arrivals| ==> base <= arrivals[i]
    ensures |r| <= |arrivals|
    ensures forall i :: 0 <= i < |r| ==> r[i] <= MAX_DELTA
  {
    if arrivals == [] then []
    else (if arrivals[0] - base <= MAX_DELTA then [arrivals[0] - base] else []) + Deltas(arrivals[1..], base)
  }

  /** Which of `total` samples the i-th kept one is. */
  function Pick(i: nat, total: nat): nat {
    i * total / MAX_SAMPLES
  }

  lemma Product(a: nat, b: nat)
    requires a >= 1
    ensures a * b >= b
  {}

  lemma PickInRange(i: nat, total: nat)
    requires i < MAX_SAMPLES && total >= MAX_SAMPLES
    ensures Pick(i, total) < total
  {
    assert i * total <= (MAX_SAMPLES - 1) * total by { Product(MAX_SAMPLES - i, total); }
  }

  function Decimated(samples: seq<nat>): (r: seq<nat>)
    ensures |r| == Capped(|samples|, MAX_SAMPLES)
  {
    var total := |samples|;
    if total <= MAX_SAMPLES then samples
    else
      seq(MAX_SAMPLES, i requires 0 <= i < MAX_SAMPLES => (PickInRange(i, total); samples[Pick(i, total)]))
  }

  /** The dispersion section's samples, and how many arrivals it leaves out. */
  function Dispersion(arrivals: seq<nat>): (seq<nat>, nat) {
    if arrivals == [] then ([], 0)
    else
      var kept := Decimated(Deltas(arrivals, Least(arrivals)));
      (kept, |arrivals| - |kept|)
  }

  // ----- The beat -----------------------------------------------------------

  function Report(r: Reporter, ledgers: Ledgers, arrivals: seq<nat>, now: nat): (Reporter, seq<int>) {
    var sent := r.pendingNacks[..Capped(|r.pendingNacks|, MAX_NACK_ENTRIES)];
    var d := Dispersion(arrivals);
    (r.(lastNewsAt := if HasNews(r, ledgers, arrivals) then Some(now) else r.lastNewsAt,
        lastReportAt := Some(now), lastLedgers := ledgers,
        pendingNacks := r.pendingNacks[|sent|..], nacksSent := r.nacksSent + |sent|,
        samplesReported := r.samplesReported + |d.0|,
        samplesDecimated := r.samplesDecimated + d.1),
     sent)
  }
}
