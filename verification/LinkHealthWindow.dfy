/** The reused buckets always say what the episode log says. */
module LinkHealthWindow {
  import opened Wrappers
  import opened LinkHealthMeter

  // ----- Tallies ------------------------------------------------------------

  lemma AddNothing(a: Tally)
    requires a.worst >= 0.0
    ensures Add(a, Nothing()) == a && Add(Nothing(), a) == a
  {}

  lemma AddRegroups(a: Tally, b: Tally, c: Tally)
    ensures Add(a, Add(b, c)) == Add(Add(a, b), c)
  {}

  ghost predicate Sane(e: Episode) {
    e.stage != Preserved && e.worst >= 0.0 && e.second <= e.tail / SECOND
  }

  ghost predicate AllSane(episodes: seq<Episode>) {
    forall e :: e in episodes ==> Sane(e)
  }

  lemma {:induction false} InSecondAbsent(episodes: seq<Episode>, s: int)
    requires forall e :: e in episodes ==> e.second != s
    ensures InSecond(episodes, s) == Nothing()
  {
    if episodes != [] { InSecondAbsent(episodes[..|episodes| - 1], s); }
  }

  // ----- Sixty columns ------------------------------------------------------

  /** The one second of the window that reuses bucket `i`. */
  function SecondOf(i: nat, now: nat): int {
    now - (now - i) % BUCKETS
  }

  lemma SecondOfIs(i: nat, now: nat, s: int)
    requires i < BUCKETS
    ensures SecondOf(i, now) == s <==> s % BUCKETS == i && s <= now < s + BUCKETS
  {}

  /** The log's tallies for the seconds of the first `k` buckets. */
  function Columns(episodes: seq<Episode>, now: nat, k: nat): Tally {
    if k == 0 then Nothing() else Add(Columns(episodes, now, k - 1), InSecond(episodes, SecondOf(k - 1, now)))
  }

  lemma {:induction false} ColumnsOfNone(now: nat, k: nat)
    ensures Columns([], now, k) == Nothing()
  {
    if k > 0 { ColumnsOfNone(now, k - 1); }
  }

  lemma {:induction false} ColumnsGrow(episodes: seq<Episode>, e: Episode, now: nat, k: nat)
    requires k <= BUCKETS
    ensures Columns(episodes + [e], now, k)
         == if InWindow(e.second, now) && e.second % BUCKETS < k
            then Add(Columns(episodes, now, k), TallyOf(e)) else Columns(episodes, now, k)
  {
    if k > 0 {
      var s := SecondOf(k - 1, now);
      ColumnsGrow(episodes, e, now, k - 1);
      SecondOfIs(k - 1, now, e.second);
      assert (episodes + [e])[..|episodes|] == episodes;
      AddRegroups(Columns(episodes, now, k - 1), InSecond(episodes, s), TallyOf(e));
    }
  }

  lemma {:induction false} ColumnsAreRecent(episodes: seq<Episode>, now: nat)
    ensures Columns(episodes, now, BUCKETS) == Recent(episodes, now)
  {
    if episodes == [] {
      ColumnsOfNone(now, BUCKETS);
    } else {
      var e := episodes[|episodes| - 1];
      var rest := episodes[..|episodes| - 1];
      assert rest + [e] == episodes;
      ColumnsGrow(rest, e, now, BUCKETS);
      ColumnsAreRecent(rest, now);
    }
  }

  // ----- Buckets against the log --------------------------------------------

  /** A bucket holds the tally of its second, and its second is the newest of the
      log's seconds that share the bucket. */
  ghost predicate BucketHolds(b: Bucket, i: nat, episodes: seq<Episode>) {
    if b.second.None? then forall e :: e in episodes ==> e.second % BUCKETS != i
    else
      && b.second.value % BUCKETS == i && b.tally == InSecond(episodes, b.second.value)
      && b.second.value <= Latest(episodes)
      && forall e :: e in episodes && e.second % BUCKETS == i ==> e.second <= b.second.value
  }

  function Latest(episodes: seq<Episode>): nat {
    if episodes == [] then 0 else episodes[|episodes| - 1].second
  }

  ghost predicate BucketsHold(buckets: seq<Bucket>, episodes: seq<Episode>) {
    |buckets| == BUCKETS && forall i :: 0 <= i < BUCKETS ==> BucketHolds(buckets[i], i, episodes)
  }

  lemma BucketIsItsColumn(b: Bucket, i: nat, episodes: seq<Episode>, now: nat)
    requires i < BUCKETS && BucketHolds(b, i, episodes) && Latest(episodes) <= now
    ensures InSecond(episodes, SecondOf(i, now))
         == if b.second.Some? && InWindow(b.second.value, now) then b.tally else Nothing()
  {
    var s := SecondOf(i, now);
    SecondOfIs(i, now, s);
    if b.second.Some? { SecondOfIs(i, now, b.second.value); }
    if !(b.second.Some? && InWindow(b.second.value, now)) { InSecondAbsent(episodes, s); }
  }

  lemma {:induction false} WindowIsColumns(buckets: seq<Bucket>, episodes: seq<Episode>, now: nat, k: nat)
    requires BucketsHold(buckets, episodes) && Latest(episodes) <= now && k <= BUCKETS
    ensures WindowTally(buckets[..k], now) == Columns(episodes, now, k)
    ensures WindowTally(buckets[..k], now).worst >= 0.0
  {
    if k > 0 {
      var front := buckets[..k];
      assert front[..k - 1] == buckets[..k - 1];
      WindowIsColumns(buckets, episodes, now, k - 1);
      BucketIsItsColumn(buckets[k - 1], k - 1, episodes, now);
      AddNothing(Columns(episodes, now, k - 1));
    }
  }

  /** The rolling window equals the log. */
  lemma WindowIsRecent(buckets: seq<Bucket>, episodes: seq<Episode>, now: nat)
    requires BucketsHold(buckets, episodes) && Latest(episodes) <= now
    ensures WindowTally(buckets, now) == Recent(episodes, now)
  {
    assert buckets[..BUCKETS] == buckets;
    WindowIsColumns(buckets, episodes, now, BUCKETS);
    ColumnsAreRecent(episodes, now);
  }

  // ----- A new episode ------------------------------------------------------

  lemma InSecondGrows(episodes: seq<Episode>, e: Episode, s: int)
    ensures InSecond(episodes + [e], s)
         == if e.second == s then Add(InSecond(episodes, s), TallyOf(e)) else InSecond(episodes, s)
  {
    assert (episodes + [e])[..|episodes|] == episodes;
  }

  lemma IncrementHolds(buckets: seq<Bucket>, episodes: seq<Episode>, e: Episode)
    requires BucketsHold(buckets, episodes) && Latest(episodes) <= e.second
    requires forall x :: x in episodes ==> x.second <= Latest(episodes)
    ensures BucketsHold(Increment(buckets, e), episodes + [e])
  {
    var after := Increment(buckets, e);
    var grown := episodes + [e];
    forall i | 0 <= i < BUCKETS
      ensures BucketHolds(after[i], i, grown)
    {
      if i == e.second % BUCKETS {
        InSecondGrows(episodes, e, e.second);
        if buckets[i].second != Some(e.second) { InSecondAbsent(episodes, e.second); }
      } else if buckets[i].second.Some? {
        InSecondGrows(episodes, e, buckets[i].second.value);
      }
    }
  }

  // ----- A worse or later frame of the last episode -------------------------

  lemma ReplaceLastHolds(buckets: seq<Bucket>, rest: seq<Episode>, e: Episode, f: Frame)
    requires BucketsHold(buckets, rest + [e]) && Sane(e) && f.outcome != Preserved
    requires forall x :: x in rest ==> x.second <= e.second
    ensures BucketsHold(if Severity(f) > e.worst then UpdatePeak(buckets, e, Severity(f), f.outcome) else buckets,
                        rest + [Extended(e, f)])
  {
    var was := rest + [e];
    var now := rest + [Extended(e, f)];
    var after := if Severity(f) > e.worst then UpdatePeak(buckets, e, Severity(f), f.outcome) else buckets;
    forall i | 0 <= i < BUCKETS
      ensures BucketHolds(after[i], i, now)
    {
      assert BucketHolds(buckets[i], i, was) && e in was;
      if buckets[i].second.Some? {
        var s := buckets[i].second.value;
        InSecondGrows(rest, e, s);
        InSecondGrows(rest, Extended(e, f), s);
      }
    }
  }

  // ----- Whole runs ---------------------------------------------------------

  datatype Event = Seen(frame: Frame) | NewEpoch | NewSession

  function Step(m: Meter, e: Event): (r: Meter)
    requires |m.buckets| == BUCKETS
    ensures |r.buckets| == BUCKETS
  {
    match e
    case Seen(f) => Observe(m, f)
    case NewEpoch => ResetEpoch(m)
    case NewSession => ResetSession(m)
  }

  function StepLog(l: Log, e: Event): Log {
    match e
    case Seen(f) => NoteLog(l, f)
    case NewEpoch => Log(l.past + l.current, [], 0, None)
    case NewSession => NoLog
  }

  function Run(m: Meter, events: seq<Event>): Meter
    requires |m.buckets| == BUCKETS
    decreases |events|
  {
    if events == [] then m else Run(Step(m, events[0]), events[1..])
  }

  function RunLog(l: Log, events: seq<Event>): Log
    decreases |events|
  {
    if events == [] then l else RunLog(StepLog(l, events[0]), events[1..])
  }

  /** New failures come in time order; frames fed again may be any age. */
  predicate InOrder(l: Log, e: Event) {
    e.Seen? && Counted(l.highWater, l.epochFirst, e.frame) && l.current != [] ==> Newest(l).value.tail <= e.frame.at
  }

  predicate AllInOrder(l: Log, events: seq<Event>)
    decreases |events|
  {
    events == [] || (InOrder(l, events[0]) && AllInOrder(StepLog(l, events[0]), events[1..]))
  }

  ghost predicate Rising(episodes: seq<Episode>) {
    forall x :: x in episodes ==> x.second <= Latest(episodes)
  }

  ghost predicate Agrees(m: Meter, l: Log) {
    && BucketsHold(m.buckets, l.current) && m.last == Newest(l)
    && m.highWater == l.highWater && m.epochFirst == l.epochFirst
    && m.sessionCount == |l.past + l.current|
    && m.sessionWorst == WorstOf(l.past + l.current)
    && AllSane(l.current) && Rising(l.current)
  }

  /** One more episode: the session books of the longer history. */
  lemma OneMore(past: seq<Episode>, current: seq<Episode>, e: Episode)
    ensures |past + (current + [e])| == |past + current| + 1
    ensures WorstOf(past + (current + [e])) == Max(WorstOf(past + current), e.worst)
  {
    assert past + current + [e] == past + (current + [e]);
  }

  /** The last episode is replaced by a worse or later one. */
  lemma OneReplaced(past: seq<Episode>, rest: seq<Episode>, e: Episode, worse: Episode)
    requires e.worst <= worse.worst
    ensures |past + (rest + [worse])| == |past + (rest + [e])|
    ensures WorstOf(past + (rest + [worse])) == Max(WorstOf(past + (rest + [e])), worse.worst)
  {
    OneMore(past, rest, e);
    OneMore(past, rest, worse);
  }

  lemma StartedFollows(l: Log, f: Frame)
    requires AllSane(l.current) && f.outcome != Preserved
    requires l.current != [] ==> Newest(l).value.tail <= f.at
    ensures Sane(Started(f)) && Latest(l.current) <= Started(f).second
  {
    if l.current != [] {
      assert Sane(Newest(l).value);
    }
  }

  lemma StartAgrees(m: Meter, l: Log, f: Frame)
    requires Agrees(m, l) && Counted(l.highWater, l.epochFirst, f) && !Joins(Newest(l), f)
    requires l.current != [] ==> Newest(l).value.tail <= f.at
    ensures Agrees(Observe(m, f), NoteLog(l, f))
  {
    StartedFollows(l, f);
    IncrementHolds(m.buckets, l.current, Started(f));
    OneMore(l.past, l.current, Started(f));
  }

  lemma ExtendedIsSane(e: Episode, f: Frame)
    requires Sane(e) && f.outcome != Preserved && e.tail <= f.at
    ensures Sane(Extended(e, f)) && Extended(e, f).worst == Max(e.worst, Severity(f))
  {
  }

  lemma Shrinks(episodes: seq<Episode>) returns (rest: seq<Episode>, e: Episode)
    requires episodes != [] && AllSane(episodes) && Rising(episodes)
    ensures episodes == rest + [e] && rest == episodes[..|episodes| - 1] && e == episodes[|episodes| - 1]
    ensures AllSane(rest) && Sane(e) && forall x :: x in rest ==> x.second <= e.second
  {
    rest, e := episodes[..|episodes| - 1], episodes[|episodes| - 1];
  }

  lemma JoinAgrees(m: Meter, l: Log, f: Frame)
    requires Agrees(m, l) && Counted(l.highWater, l.epochFirst, f) && Joins(Newest(l), f)
    ensures Agrees(Observe(m, f), NoteLog(l, f))
  {
    var rest, e := Shrinks(l.current);
    ExtendedIsSane(e, f);
    ReplaceLastHolds(m.buckets, rest, e, f);
    OneReplaced(l.past, rest, e, Extended(e, f));
    OneMore(l.past, rest, e);
  }

  lemma StepAgrees(m: Meter, l: Log, e: Event)
    requires Agrees(m, l) && InOrder(l, e)
    ensures Agrees(Step(m, e), StepLog(l, e))
  {
    match e
    case Seen(f) =>
      if Counted(l.highWater, l.epochFirst, f) {
        if Joins(Newest(l), f) { JoinAgrees(m, l, f); } else { StartAgrees(m, l, f); }
      }
    case NewEpoch =>
      assert l.past + l.current + [] == l.past + l.current;
    case NewSession =>
      assert NoLog.past + NoLog.current == [];
  }

  lemma {:induction false} RunAgrees(m: Meter, l: Log, events: seq<Event>)
    requires Agrees(m, l) && AllInOrder(l, events)
    ensures Agrees(Run(m, events), RunLog(l, events))
    decreases |events|
  {
    if events != [] {
      StepAgrees(m, l, events[0]);
      RunAgrees(Step(m, events[0]), StepLog(l, events[0]), events[1..]);
    }
  }

  /** The rolling window equals the log: when new failures arrive in time order
      and none is later than now, the assessment counts exactly the episodes that
      began in the current second or the 59 before it, with their worst peak and
      stage split, and the session books are those of every episode. */
  lemma AssessmentIsExact(events: seq<Event>, now: nat)
    requires AllInOrder(NoLog, events)
    requires RunLog(NoLog, events).current != [] ==> Newest(RunLog(NoLog, events)).value.tail <= now
    ensures var m := Run(Fresh, events);
      var l := RunLog(NoLog, events);
      && WindowTally(m.buckets, now / SECOND) == Recent(l.current, now / SECOND)
      && m.sessionCount == |l.past + l.current| && m.sessionWorst == WorstOf(l.past + l.current)
  {
    assert NoLog.past + NoLog.current == [];
    RunAgrees(Fresh, NoLog, events);
    var l := RunLog(NoLog, events);
    if l.current != [] {
      assert Sane(Newest(l).value);
    }
    WindowIsRecent(Run(Fresh, events).buckets, l.current, now / SECOND);
  }

  // ----- Scans that overlap -------------------------------------------------

  function Feed(m: Meter, frames: seq<Frame>): Meter
    requires |m.buckets| == BUCKETS
    decreases |frames|
  {
    if frames == [] then m else Feed(Observe(m, frames[0]), frames[1..])
  }

  lemma {:induction false} FeedAppend(m: Meter, a: seq<Frame>, b: seq<Frame>)
    requires |m.buckets| == BUCKETS
    ensures |Feed(m, a).buckets| == BUCKETS && Feed(m, a + b) == Feed(Feed(m, a), b)
    decreases |a|
  {
    if a == [] {
      assert a + b == b;
    } else {
      assert (a + b)[1..] == a[1..] + b;
      FeedAppend(Observe(m, a[0]), a[1..], b);
    }
  }

  lemma {:induction false} OldFramesIgnored(m: Meter, frames: seq<Frame>)
    requires |m.buckets| == BUCKETS && forall i :: 0 <= i < |frames| ==> frames[i].ordinal <= m.highWater
    ensures Feed(m, frames) == m
    decreases |frames|
  {
    if frames != [] { OldFramesIgnored(m, frames[1..]); }
  }

  lemma {:induction false} FeedRaisesHighWater(m: Meter, frames: seq<Frame>)
    requires |m.buckets| == BUCKETS
    ensures |Feed(m, frames).buckets| == BUCKETS && m.highWater <= Feed(m, frames).highWater
    ensures forall i :: 0 <= i < |frames| ==> frames[i].ordinal <= Feed(m, frames).highWater
    decreases |frames|
  {
    if frames != [] { FeedRaisesHighWater(Observe(m, frames[0]), frames[1..]); }
  }

  /** Overlapping scans are one scan: feeding a prefix of the recorder and then
      again from anywhere inside it is feeding the recorder once, whatever the
      ordinals. */
  lemma OverlappingScans(m: Meter, frames: seq<Frame>, again: nat, upTo: nat)
    requires |m.buckets| == BUCKETS && again <= upTo <= |frames|
    ensures |Feed(m, frames[..upTo]).buckets| == BUCKETS
    ensures Feed(Feed(m, frames[..upTo]), frames[again..]) == Feed(m, frames)
  {
    var first := frames[..upTo];
    FeedRaisesHighWater(m, first);
    var n := Feed(m, first);
    var repeated := frames[again..upTo];
    forall i | 0 <= i < |repeated|
      ensures repeated[i].ordinal <= n.highWater
    {
      assert repeated[i] == first[again + i];
    }
    OldFramesIgnored(n, repeated);
    FeedAppend(n, repeated, frames[upTo..]);
    assert repeated + frames[upTo..] == frames[again..];
    FeedAppend(m, first, frames[upTo..]);
    assert first + frames[upTo..] == frames;
  }
}
