/** What the reporter promises over runs: news is repeated twice in time, NACK
    entries leave in order, and no arrival goes uncounted. */
module FeedbackRuns {
  import opened Wrappers
  import opened ClientFeedbackReporter

  datatype Event =
    | Beat(ledgers: Ledgers, arrivals: seq<nat>, idleFeedback: bool, now: nat)
    | Queue(entries: seq<int>)

  predicate Sends(r: Reporter, e: Event) {
    e.Beat? && IsDue(r, e.ledgers, e.arrivals, e.idleFeedback, e.now)
  }

  function Step(r: Reporter, e: Event): Reporter {
    if e.Queue? then Enqueue(r, e.entries)
    else if Sends(r, e) then Report(r, e.ledgers, e.arrivals, e.now).0
    else r
  }

  /** Beats follow one another at the slowest cadence or faster. */
  predicate Dense(events: seq<Event>, clock: nat)
    decreases |events|
  {
    events == [] ||
    if events[0].Queue? then Dense(events[1..], clock)
    else clock <= events[0].now <= clock + SLOWEST_BEAT && Dense(events[1..], events[0].now)
  }

  function Clock(events: seq<Event>, clock: nat): nat
    decreases |events|
  {
    if events == [] then clock
    else Clock(events[1..], if events[0].Beat? then events[0].now else clock)
  }

  /** Reports sent by `deadline`. */
  function Reports(r: Reporter, events: seq<Event>, deadline: nat): nat
    decreases |events|
  {
    if events == [] then 0
    else Count(Sends(r, events[0]) && events[0].now <= deadline) + Reports(Step(r, events[0]), events[1..], deadline)
  }

  // ----- The next report ----------------------------------------------------

  datatype Next = Never | Sent(after: Reporter, at: nat, news: bool, rest: seq<Event>)

  function NextReport(r: Reporter, events: seq<Event>): Next
    decreases |events|
  {
    if events == [] then Never
    else if Sends(r, events[0]) then
      Sent(Step(r, events[0]), events[0].now, HasNews(r, events[0].ledgers, events[0].arrivals), events[1..])
    else NextReport(Step(r, events[0]), events[1..])
  }

  lemma {:induction false} NextCounts(r: Reporter, events: seq<Event>, deadline: nat)
    requires NextReport(r, events).Sent? && NextReport(r, events).at <= deadline
    ensures var n := NextReport(r, events);
      Reports(r, events, deadline) >= 1 + Reports(n.after, n.rest, deadline)
    decreases |events|
  {
    if !Sends(r, events[0]) { NextCounts(Step(r, events[0]), events[1..], deadline); }
  }

  /** An echo or heartbeat falls due at `due`. */
  predicate FallsDue(r: Reporter, due: nat) {
    r.lastReportAt.Some? && r.lastReportAt.value < due &&
    ((r.lastNewsAt.Some? && (due == r.lastNewsAt.value + FIRST_ECHO || due == r.lastNewsAt.value + SECOND_ECHO))
     || due == r.lastReportAt.value + HEARTBEAT)
  }

  /** Whatever falls due is reported within a beat of it, if not before. */
  lemma {:induction false} DueIsReported(r: Reporter, events: seq<Event>, clock: nat, due: nat)
    requires FallsDue(r, due) && clock < due && Dense(events, clock) && due <= Clock(events, clock)
    ensures var n := NextReport(r, events);
      && n.Sent? && clock <= n.at < due + SLOWEST_BEAT
      && n.after.lastReportAt == Some(n.at)
      && n.after.lastNewsAt == (if n.news then Some(n.at) else r.lastNewsAt)
      && Dense(n.rest, n.at) && Clock(n.rest, n.at) == Clock(events, clock)
    decreases |events|
  {
    if events != [] && !Sends(r, events[0]) {
      DueIsReported(Step(r, events[0]), events[1..], if events[0].Beat? then events[0].now else clock, due);
    }
  }

  /** A report of news at `t` is followed by at least two more within 260 ms,
      whatever further news arrives, as long as beats keep the cadence. */
  lemma NewsIsRepeatedTwice(r: Reporter, events: seq<Event>, t: nat)
    requires r.lastReportAt == Some(t) && r.lastNewsAt == Some(t)
    requires Dense(events, t) && t + 260_000 <= Clock(events, t)
    ensures Reports(r, events, t + 260_000) >= 2
  {
    DueIsReported(r, events, t, t + FIRST_ECHO);
    var first := NextReport(r, events);
    DueIsReported(first.after, first.rest, first.at,
                  if first.news then first.at + FIRST_ECHO else t + SECOND_ECHO);
    NextCounts(r, events, t + 260_000);
    NextCounts(first.after, first.rest, t + 260_000);
  }

  /** The client is never silent longer than the heartbeat and one beat. */
  lemma HeartbeatBoundsSilence(r: Reporter, events: seq<Event>, t: nat)
    requires r.lastReportAt == Some(t) && Dense(events, t) && t + HEARTBEAT <= Clock(events, t)
    ensures NextReport(r, events).Sent? && NextReport(r, events).at < t + HEARTBEAT + SLOWEST_BEAT
  {
    DueIsReported(r, events, t, t + HEARTBEAT);
  }

  // ----- NACK entries leave in order ----------------------------------------

  /** All entries ever queued, and all ever sent, in order. */
  function Queued(events: seq<Event>): seq<int>
    decreases |events|
  {
    if events == [] then [] else (if events[0].Queue? then events[0].entries else []) + Queued(events[1..])
  }

  function SentNacks(r: Reporter, events: seq<Event>): seq<int>
    decreases |events|
  {
    if events == [] then []
    else
      (if Sends(r, events[0]) then Report(r, events[0].ledgers, events[0].arrivals, events[0].now).1 else [])
      + SentNacks(Step(r, events[0]), events[1..])
  }

  function Run(r: Reporter, events: seq<Event>): Reporter
    decreases |events|
  {
    if events == [] then r else Run(Step(r, events[0]), events[1..])
  }

  /** `part` is what remains of `whole` after dropping some of its elements. */
  ghost predicate Subsequence(part: seq<int>, whole: seq<int>)
    decreases |whole|
  {
    if part == [] then true
    else if whole == [] then false
    else (part[0] == whole[0] && Subsequence(part[1..], whole[1..])) || Subsequence(part, whole[1..])
  }

  lemma {:induction false} SubsequenceSelf(whole: seq<int>)
    ensures Subsequence(whole, whole)
    decreases |whole|
  {
    if whole != [] { SubsequenceSelf(whole[1..]); }
  }

  lemma {:induction false} SubsequenceSkips(part: seq<int>, skipped: seq<int>, whole: seq<int>)
    requires Subsequence(part, whole)
    ensures Subsequence(part, skipped + whole)
    decreases |skipped|
  {
    if skipped == [] {
      assert skipped + whole == whole;
    } else {
      SubsequenceSkips(part, skipped[1..], whole);
      assert (skipped + whole)[1..] == skipped[1..] + whole;
    }
  }

  lemma {:induction false} SubsequenceKeeps(front: seq<int>, part: seq<int>, whole: seq<int>)
    requires Subsequence(part, whole)
    ensures Subsequence(front + part, front + whole)
    decreases |front|
  {
    if front == [] {
      assert front + part == part && front + whole == whole;
    } else {
      SubsequenceKeeps(front[1..], part, whole);
      assert (front + part)[1..] == front[1..] + part;
      assert (front + whole)[1..] == front[1..] + whole;
    }
  }

  lemma Regroup(a: seq<int>, b: seq<int>, c: seq<int>)
    ensures (a + b) + c == a + (b + c)
  {}

  lemma QueueInOrder(pending: seq<int>, entries: seq<int>, kept: seq<int>, later: seq<int>, tail: seq<int>)
    requires |kept| <= |pending + entries| && kept == (pending + entries)[|pending + entries| - |kept|..]
    requires Subsequence(later, kept + tail)
    ensures Subsequence(later, pending + (entries + tail))
  {
    var all := pending + entries;
    var dropped := all[..|all| - |kept|];
    SubsequenceSkips(later, dropped, kept + tail);
    assert dropped + kept == all;
    Regroup(dropped, kept, tail);
    Regroup(pending, entries, tail);
  }

  lemma SendInOrder(sent: seq<int>, kept: seq<int>, rest: seq<int>, end: seq<int>, tail: seq<int>)
    requires Subsequence(rest + end, kept + tail)
    ensures Subsequence((sent + rest) + end, (sent + kept) + tail)
  {
    SubsequenceKeeps(sent, rest + end, kept + tail);
    Regroup(sent, rest, end);
    Regroup(sent, kept, tail);
  }

  /** Entries leave oldest first: those sent, then those still pending, are in
      order among those queued, and what is missing was dropped by the cap. */
  lemma {:induction false} NacksLeaveInOrder(r: Reporter, events: seq<Event>)
    ensures Subsequence(SentNacks(r, events) + Run(r, events).pendingNacks, r.pendingNacks + Queued(events))
    decreases |events|
  {
    if events == [] {
      assert SentNacks(r, events) + Run(r, events).pendingNacks == r.pendingNacks;
      assert r.pendingNacks + Queued(events) == r.pendingNacks;
      SubsequenceSelf(r.pendingNacks);
    } else {
      var e := events[0];
      var s := Step(r, e);
      NacksLeaveInOrder(s, events[1..]);
      StepInOrder(r, e, s, SentNacks(s, events[1..]), Run(s, events[1..]).pendingNacks, Queued(events[1..]));
    }
  }

  lemma StepInOrder(r: Reporter, e: Event, s: Reporter, rest: seq<int>, end: seq<int>, tail: seq<int>)
    requires s == Step(r, e) && Subsequence(rest + end, s.pendingNacks + tail)
    ensures Subsequence(
      ((if Sends(r, e) then Report(r, e.ledgers, e.arrivals, e.now).1 else []) + rest) + end,
      r.pendingNacks + ((if e.Queue? then e.entries else []) + tail))
  {
    assert [] + rest == rest && [] + tail == tail;
    if e.Queue? {
      QueueInOrder(r.pendingNacks, e.entries, s.pendingNacks, rest + end, tail);
    } else if Sends(r, e) {
      var sent := Report(r, e.ledgers, e.arrivals, e.now).1;
      SendInOrder(sent, s.pendingNacks, rest, end, tail);
      assert sent + s.pendingNacks == r.pendingNacks;
    }
  }

  /** The queue stays within its cap, and a report takes a full load or all. */
  lemma {:induction false} QueueStaysCapped(r: Reporter, events: seq<Event>)
    requires |r.pendingNacks| <= PENDING_NACK_CAP
    ensures |Run(r, events).pendingNacks| <= PENDING_NACK_CAP
    decreases |events|
  {
    if events != [] { QueueStaysCapped(Step(r, events[0]), events[1..]); }
  }

  // ----- Dispersion ---------------------------------------------------------

  function ArrivalsReported(r: Reporter, events: seq<Event>): nat
    decreases |events|
  {
    if events == [] then 0
    else (if Sends(r, events[0]) then |events[0].arrivals| else 0) + ArrivalsReported(Step(r, events[0]), events[1..])
  }

  /** Every arrival handed to a report is sampled or counted as decimated. */
  lemma {:induction false} ArrivalsAreConserved(r: Reporter, events: seq<Event>)
    ensures Run(r, events).samplesReported + Run(r, events).samplesDecimated
         == r.samplesReported + r.samplesDecimated + ArrivalsReported(r, events)
    decreases |events|
  {
    if events != [] { ArrivalsAreConserved(Step(r, events[0]), events[1..]); }
  }

  /** Decimation is even: the kept samples are distinct, in order, and their gaps
      differ by at most one. */
  lemma DecimationIsEven(samples: seq<nat>, i: nat)
    requires |samples| > MAX_SAMPLES && i + 1 < MAX_SAMPLES
    ensures var total := |samples|;
      var gap := Pick(i + 1, total) - Pick(i, total);
      && total / MAX_SAMPLES <= gap <= total / MAX_SAMPLES + 1
      && Pick(i + 1, total) < total && Pick(0, total) == 0
      && Decimated(samples)[i] == samples[Pick(i, total)]
  {
    PickInRange(i, |samples|);
    PickInRange(i + 1, |samples|);
    assert (i + 1) * |samples| == i * |samples| + |samples|;
  }
}
