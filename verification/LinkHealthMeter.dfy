/** The delivery path's failure verdict: a rolling window of sixty reused
    one-second buckets, and the episode log it must agree with. */
module LinkHealthMeter {
  import opened Wrappers

  const COALESCE: nat := 500_000
  const BUCKETS: nat := 60
  const WARMUP: nat := 10_000_000
  const SECOND: nat := 1_000_000

  datatype Outcome = Preserved | Miss | Renderer

  datatype Frame = Frame(ordinal: nat, lateness: Option<real>, outcome: Outcome, at: nat)

  /** Counts and worst peak of some episodes. */
  datatype Tally = Tally(count: nat, worst: real, misses: int, renderers: int)

  function Nothing(): Tally {
    Tally(0, 0.0, 0, 0)
  }

  datatype Bucket = Bucket(second: Option<nat>, tally: Tally)

  datatype Episode = Episode(second: nat, tail: nat, worst: real, stage: Outcome)

  datatype Meter = Meter(
    buckets: seq<Bucket>, last: Option<Episode>, highWater: nat, epochFirst: Option<nat>,
    sessionCount: nat, sessionWorst: real)

  function Max(a: real, b: real): real {
    if a < b then b else a
  }

  function Severity(f: Frame): real {
    Max(if f.lateness.Some? then f.lateness.value else 0.0, 0.0)
  }

  /** A new frame past the warm-up that failed. */
  predicate Counted(highWater: nat, epochFirst: Option<nat>, f: Frame) {
    var start := if epochFirst.Some? then epochFirst.value else f.at;
    f.ordinal > highWater && f.at >= start && f.at - start >= WARMUP && f.outcome != Preserved
  }

  predicate Joins(last: Option<Episode>, f: Frame) {
    last.Some? && f.at >= last.value.tail && f.at - last.value.tail <= COALESCE
  }

  function Extended(e: Episode, f: Frame): Episode {
    if Severity(f) > e.worst then e.(tail := f.at, worst := Severity(f), stage := f.outcome) else e.(tail := f.at)
  }

  function Started(f: Frame): Episode {
    Episode(f.at / SECOND, f.at, Severity(f), f.outcome)
  }

  // ----- Buckets ------------------------------------------------------------

  function EmptyBuckets(): (b: seq<Bucket>)
    ensures |b| == BUCKETS
  {
    seq(BUCKETS, i => Bucket(None, Nothing()))
  }

  function Add(a: Tally, b: Tally): Tally {
    Tally(a.count + b.count, Max(a.worst, b.worst), a.misses + b.misses, a.renderers + b.renderers)
  }

  function TallyOf(e: Episode): Tally {
    Tally(1, e.worst, if e.stage == Renderer then 0 else 1, if e.stage == Renderer then 1 else 0)
  }

  function Increment(buckets: seq<Bucket>, e: Episode): (r: seq<Bucket>)
    requires |buckets| == BUCKETS
    ensures |r| == BUCKETS
  {
    var i := e.second % BUCKETS;
    var b := if buckets[i].second != Some(e.second) then Bucket(Some(e.second), Nothing()) else buckets[i];
    buckets[i := b.(tally := Add(b.tally, TallyOf(e)))]
  }

  /** A worse frame joined the episode: its bucket takes the new peak and stage. */
  function UpdatePeak(buckets: seq<Bucket>, e: Episode, worst: real, stage: Outcome): (r: seq<Bucket>)
    requires |buckets| == BUCKETS
    ensures |r| == BUCKETS
  {
    var i := e.second % BUCKETS;
    var b := buckets[i];
    if b.second != Some(e.second) then buckets
    else
      var peak := b.tally.(worst := Max(b.tally.worst, worst));
      buckets[i := b.(tally :=
        if e.stage == stage then peak
        else if e.stage == Renderer then peak.(renderers := peak.renderers - 1, misses := peak.misses + 1)
        else peak.(misses := peak.misses - 1, renderers := peak.renderers + 1))]
  }

  // ----- Operations ---------------------------------------------------------

  const Fresh := Meter(EmptyBuckets(), None, 0, None, 0, 0.0)

  function Noted(m: Meter, f: Frame): Meter {
    m.(highWater := f.ordinal, epochFirst := Some(if m.epochFirst.Some? then m.epochFirst.value else f.at))
  }

  function Fail(m: Meter, f: Frame): (r: Meter)
    requires |m.buckets| == BUCKETS
    ensures |r.buckets| == BUCKETS
  {
    var n := if Joins(m.last, f) then
        m.(buckets := if Severity(f) > m.last.value.worst
                      then UpdatePeak(m.buckets, m.last.value, Severity(f), f.outcome) else m.buckets,
           last := Some(Extended(m.last.value, f)))
      else m.(buckets := Increment(m.buckets, Started(f)), last := Some(Started(f)),
              sessionCount := m.sessionCount + 1);
    n.(sessionWorst := Max(m.sessionWorst, Severity(f)))
  }

  function Observe(m: Meter, f: Frame): (r: Meter)
    requires |m.buckets| == BUCKETS
    ensures |r.buckets| == BUCKETS
  {
    if f.ordinal <= m.highWater then m
    else if Counted(m.highWater, m.epochFirst, f) then Fail(Noted(m, f), f)
    else Noted(m, f)
  }

  function ResetEpoch(m: Meter): (r: Meter)
    ensures |r.buckets| == BUCKETS
  {
    m.(buckets := EmptyBuckets(), last := None, epochFirst := None, highWater := 0)
  }

  function ResetSession(m: Meter): (r: Meter)
    ensures |r.buckets| == BUCKETS
  {
    ResetEpoch(m).(sessionCount := 0, sessionWorst := 0.0)
  }

  predicate InWindow(second: nat, now: nat) {
    second <= now < second + BUCKETS
  }

  /** The buckets of the current second and the 59 before it, added up. */
  function WindowTally(buckets: seq<Bucket>, now: nat): Tally {
    if buckets == [] then Nothing()
    else
      var b := buckets[|buckets| - 1];
      var rest := WindowTally(buckets[..|buckets| - 1], now);
      if b.second.Some? && InWindow(b.second.value, now) then Add(rest, b.tally) else rest
  }

  datatype Level = Good | Degraded | Poor

  function LevelOf(t: Tally): Level {
    if t.count >= 3 || t.worst >= 100.0 then Poor else if t.count >= 1 then Degraded else Good
  }

  /** The stage that dominates: None when there is nothing. */
  function DominantOf(t: Tally): Option<Outcome> {
    if t.misses == 0 && t.renderers == 0 then None
    else if t.renderers > t.misses then Some(Renderer) else Some(Miss)
  }

  // ----- The episode log ----------------------------------------------------

  /** Every episode of the sitting: those of the current epoch, and before it. */
  datatype Log = Log(past: seq<Episode>, current: seq<Episode>, highWater: nat, epochFirst: Option<nat>)

  const NoLog := Log([], [], 0, None)

  function Newest(l: Log): Option<Episode> {
    if l.current == [] then None else Some(l.current[|l.current| - 1])
  }

  function NoteLog(l: Log, f: Frame): Log {
    if f.ordinal <= l.highWater then l
    else
      var n := l.(highWater := f.ordinal,
                  epochFirst := Some(if l.epochFirst.Some? then l.epochFirst.value else f.at));
      if !Counted(l.highWater, l.epochFirst, f) then n
      else if Joins(Newest(l), f) then
        n.(current := l.current[..|l.current| - 1] + [Extended(Newest(l).value, f)])
      else n.(current := l.current + [Started(f)])
  }

  /** The tally of the episodes that began in one second. */
  function InSecond(episodes: seq<Episode>, second: int): Tally {
    if episodes == [] then Nothing()
    else
      var e := episodes[|episodes| - 1];
      var rest := InSecond(episodes[..|episodes| - 1], second);
      if e.second == second then Add(rest, TallyOf(e)) else rest
  }

  /** The tally of the episodes that began in the current second or the 59 before. */
  function Recent(episodes: seq<Episode>, now: nat): Tally {
    if episodes == [] then Nothing()
    else
      var e := episodes[|episodes| - 1];
      var rest := Recent(episodes[..|episodes| - 1], now);
      if InWindow(e.second, now) then Add(rest, TallyOf(e)) else rest
  }

  function WorstOf(episodes: seq<Episode>): real {
    if episodes == [] then 0.0
    else Max(WorstOf(episodes[..|episodes| - 1]), episodes[|episodes| - 1].worst)
  }
}
