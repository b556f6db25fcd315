/** When the client reports, by the reports it sent before, and what the samples of
    one report are. The reporter keeps three facts of the reports it sent: when the
    last one left, when the last news did, and the ledgers the last one carried; so
    whether a beat reports is read off the log of them. */
module FeedbackAnswers {
  import opened Wrappers
  import opened ClientFeedbackReporter
  import opened FeedbackRuns
  import opened Positions

  // ----- The log of reports -------------------------------------------------

  /** One report, and whether it carried news. */
  datatype Told = Told(at: nat, ledgers: Ledgers, news: bool)

  function LastLedgers(log: seq<Told>): Ledgers {
    if log == [] then [] else log[|log| - 1].ledgers
  }

  /** The beat has something new: arrivals, queued entries, or a ledger that moved
      since the last report. */
  predicate News(log: seq<Told>, queue: seq<int>, e: Event)
    requires e.Beat?
  {
    e.arrivals != [] || queue != [] || e.ledgers != LastLedgers(log)
  }

  /** The newest report that carried news came at least `offset` ago, and nothing was
      reported since that offset. */
  predicate Echoes(log: seq<Told>, offset: nat, now: nat) {
    log != [] && exists i ::
      && 0 <= i < |log| && log[i].news && (forall j :: i < j < |log| ==> !log[j].news)
      && now >= log[i].at + offset && log[|log| - 1].at < log[i].at + offset
  }

  /** A beat reports when feedback is not idle, at first, on news, on either echo of
      the last news, and two seconds after the last report. */
  predicate Due(log: seq<Told>, queue: seq<int>, e: Event) {
    e.Beat? &&
    (|| !e.idleFeedback || log == [] || News(log, queue, e)
     || Echoes(log, 80_000, e.now) || Echoes(log, 200_000, e.now)
     || e.now >= log[|log| - 1].at + 2_000_000)
  }

  function Logged(log: seq<Told>, queue: seq<int>, e: Event): seq<Told> {
    if Due(log, queue, e) then log + [Told(e.now, e.ledgers, News(log, queue, e))] else log
  }

  /** The log of a run, read off its events and what it queued. */
  function Log(log: seq<Told>, r: Reporter, events: seq<Event>): seq<Told>
    decreases |events|
  {
    if events == [] then log
    else Log(Logged(log, r.pendingNacks, events[0]), Step(r, events[0]), events[1..])
  }

  function LastNews(log: seq<Told>): Option<nat> {
    if log == [] then None
    else if log[|log| - 1].news then Some(log[|log| - 1].at)
    else LastNews(log[..|log| - 1])
  }

  lemma {:induction false} LastNewsIs(log: seq<Told>)
    ensures LastNews(log).None? ==> forall i :: 0 <= i < |log| ==> !log[i].news
    ensures LastNews(log).Some? ==> exists i ::
      0 <= i < |log| && log[i].news && log[i].at == LastNews(log).value && (forall j :: i < j < |log| ==> !log[j].news)
  {
    if log != [] && !log[|log| - 1].news {
      var init := log[..|log| - 1];
      LastNewsIs(init);
      if LastNews(init).Some? {
        var i :| 0 <= i < |init| && init[i].news && init[i].at == LastNews(init).value
                 && (forall j :: i < j < |init| ==> !init[j].news);
        assert log[i].news;
      }
    }
  }

  /** The reporter remembers of the log just what it needs. */
  predicate Remembers(r: Reporter, log: seq<Told>) {
    && r.lastReportAt == (if log == [] then None else Some(log[|log| - 1].at))
    && r.lastLedgers == LastLedgers(log) && r.lastNewsAt == LastNews(log)
  }

  lemma EchoIs(r: Reporter, log: seq<Told>, offset: nat, now: nat)
    requires Remembers(r, log)
    ensures EchoAt(r, offset, now) <==> Echoes(log, offset, now)
  {
    LastNewsIs(log);
  }

  lemma StepRemembers(r: Reporter, log: seq<Told>, e: Event)
    requires Remembers(r, log)
    ensures Sends(r, e) <==> Due(log, r.pendingNacks, e)
    ensures Remembers(Step(r, e), Logged(log, r.pendingNacks, e))
  {
    if e.Beat? {
      EchoIs(r, log, 80_000, e.now);
      EchoIs(r, log, 200_000, e.now);
      var sent := Told(e.now, e.ledgers, News(log, r.pendingNacks, e));
      assert (log + [sent])[..|log|] == log;
    }
  }

  lemma {:induction false} RunRemembers(r: Reporter, log: seq<Told>, events: seq<Event>)
    requires Remembers(r, log)
    ensures Remembers(Run(r, events), Log(log, r, events))
    decreases |events|
  {
    if events != [] {
      StepRemembers(r, log, events[0]);
      RunRemembers(Step(r, events[0]), Logged(log, r.pendingNacks, events[0]), events[1..]);
    }
  }

  /** In every run a beat reports exactly when it is due by the reports before it. */
  lemma ReportsExactlyWhenDue(events: seq<Event>, e: Event)
    ensures var r := Run(Fresh(), events);
            Sends(r, e) <==> Due(Log([], Fresh(), events), r.pendingNacks, e)
  {
    RunRemembers(Fresh(), [], events);
    StepRemembers(Run(Fresh(), events), Log([], Fresh(), events), e);
  }

  lemma {:induction false} EntriesAreCounted(r: Reporter, events: seq<Event>)
    ensures Run(r, events).nacksSent == r.nacksSent + |SentNacks(r, events)|
    decreases |events|
  {
    if events != [] { EntriesAreCounted(Step(r, events[0]), events[1..]); }
  }

  /** The books of a run count just the entries it sent and the arrivals it reported. */
  lemma BooksAddUp(events: seq<Event>)
    ensures var r := Run(Fresh(), events);
            && r.nacksSent == |SentNacks(Fresh(), events)|
            && r.samplesReported + r.samplesDecimated == ArrivalsReported(Fresh(), events)
  {
    EntriesAreCounted(Fresh(), events);
    ArrivalsAreConserved(Fresh(), events);
  }

  // ----- The samples --------------------------------------------------------

  /** These positions, in order, are just the arrivals that fit the field's width. */
  ghost predicate Fits(at: seq<nat>, arrivals: seq<nat>, base: nat) {
    && Rise(at) && (forall i :: 0 <= i < |at| ==> at[i] < |arrivals|)
    && (forall k :: 0 <= k < |arrivals| ==> (k in at <==> arrivals[k] - base <= 0xFF_FFFF))
  }

  /** These are the deltas at these positions. */
  ghost predicate Reads(deltas: seq<nat>, at: seq<nat>, arrivals: seq<nat>, base: nat) {
    |deltas| == |at| && forall i :: 0 <= i < |at| ==> at[i] < |arrivals| && deltas[i] == arrivals[at[i]] - base
  }

  lemma BehindFits(at: seq<nat>, arrivals: seq<nat>, base: nat)
    requires arrivals != [] && Fits(at, arrivals[1..], base)
    ensures Fits(Behind(at, arrivals[0] - base <= 0xFF_FFFF), arrivals, base)
  {
    var head := arrivals[0] - base <= 0xFF_FFFF;
    forall k | 0 <= k < |arrivals|
      ensures k in Behind(at, head) <==> arrivals[k] - base <= 0xFF_FFFF
    {
      BehindHolds(at, head, k);
      if k > 0 { assert arrivals[1..][k - 1] == arrivals[k]; }
    }
  }

  lemma BehindReads(deltas: seq<nat>, at: seq<nat>, arrivals: seq<nat>, base: nat)
    requires arrivals != [] && base <= arrivals[0] && Reads(deltas, at, arrivals[1..], base)
    ensures var fits := arrivals[0] - base <= 0xFF_FFFF;
            Reads((if fits then [arrivals[0] - base] else []) + deltas, Behind(at, fits), arrivals, base)
  {
    forall i | 0 <= i < |at| ensures at[i] + 1 < |arrivals| && deltas[i] == arrivals[at[i] + 1] - base {}
  }

  lemma {:induction false} DeltasAre(arrivals: seq<nat>, base: nat) returns (at: seq<nat>)
    requires forall i :: 0 <= i < |arrivals| ==> base <= arrivals[i]
    ensures Fits(at, arrivals, base) && Reads(Deltas(arrivals, base), at, arrivals, base)
  {
    if arrivals == [] {
      at := [];
    } else {
      var rest := DeltasAre(arrivals[1..], base);
      at := Behind(rest, arrivals[0] - base <= 0xFF_FFFF);
      BehindFits(rest, arrivals, base);
      BehindReads(Deltas(arrivals[1..], base), rest, arrivals, base);
    }
  }

  /** The samples of a report count from its earliest arrival, in order of arrival,
      those past the field's width left out; beyond 112 of them, evenly chosen. */
  lemma SamplesAre(arrivals: seq<nat>) returns (base: nat, at: seq<nat>)
    requires arrivals != []
    ensures base in arrivals && forall a :: a in arrivals ==> base <= a
    ensures Fits(at, arrivals, base)
    ensures var (kept, left) := Dispersion(arrivals);
            && |kept| + left == |arrivals| && |kept| == (if |at| <= 112 then |at| else 112)
            && forall i :: 0 <= i < |kept| ==>
                 var k := if |at| <= 112 then i else i * |at| / 112;
                 0 <= k < |at| && kept[i] == arrivals[at[k]] - base
  {
    base := Least(arrivals);
    at := DeltasAre(arrivals, base);
    var (kept, left) := Dispersion(arrivals);
    if |at| > 112 {
      forall i | 0 <= i < |kept|
        ensures 0 <= i * |at| / 112 < |at| && kept[i] == arrivals[at[i * |at| / 112]] - base
      {
        PickInRange(i, |at|);
        assert kept[i] == Deltas(arrivals, base)[Pick(i, |at|)];
      }
    }
  }
}
