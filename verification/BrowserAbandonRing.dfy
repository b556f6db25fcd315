/** The abandoned ring: exactly when it overwrites a promise nobody was told of,
    and the accounting of a page that drains in time. */
module BrowserAbandonRing {
  import opened Wrappers
  import opened BrowserVideoPlayout
  import opened BrowserVideoRuns
  import opened BrowserPresentationSteps
  import opened BrowserPresentation
  import opened BrowserAbandonSteps

  // ----- How much that is, before the event ---------------------------------

  /** The event sends the ring exactly that many. */
  lemma StepDiscards(s: System, e: Event)
    requires PresentInv(s) && Enabled(s, e) && !e.PageDrains?
    ensures Ringed(Step(s, e).p) == Ringed(s.p) + Discards(s.p, e)
  {
    match e
    case Assembled(unit, beat, arrival) =>
      WidenBound(s.p, Bound(s), unit.frame);
      ScheduleDiscards(s.p, unit, beat, arrival);
    case Skipped(through) =>
    case Demanded(frame) =>
    case BeatAt(now) => ExpireDiscards(s.p, now, Bound(s));
    case PageTakes =>
    case PageDropsBefore(index) => DropEachSends(s.(queue := s.queue[index..]), s.queue[..index]);
    case PagePops(now) => PopSends(s.p, now);
  }

  // ----- Runs ---------------------------------------------------------------

  /** The page left the ring room for what this event discards. */
  predicate HasRoom(s: System, e: Event) {
    Enabled(s, e) ==> |s.p.abandoned| + Discards(s.p, e) <= CAPACITY
  }

  /** The page drained in time before every event. */
  ghost predicate DrainedInTime(es: seq<Event>)
    decreases |es|
  {
    es == [] ||
    (DrainedInTime(es[..|es| - 1]) && HasRoom(Run(es[..|es| - 1]), es[|es| - 1]))
  }

  lemma StepLoses(s: System, e: Event)
    requires PresentInv(s) && |s.p.abandoned| <= CAPACITY
    ensures |Step(s, e).p.abandoned| <= CAPACITY && |Step(s, e).p.lost| >= |s.p.lost|
    ensures |Step(s, e).p.lost| == |s.p.lost| <==> HasRoom(s, e)
  {
    if Enabled(s, e) && !e.PageDrains? {
      var n := StepSends(s, e);
      StepDiscards(s, e);
    }
  }

  /** In every run the ring overwrote nothing if and only if the page left it room
      for each event's discards. */
  lemma {:induction false} NothingLostIff(es: seq<Event>)
    ensures |Run(es).p.abandoned| <= CAPACITY
    ensures Run(es).p.lost == [] <==> DrainedInTime(es)
    decreases |es|
  {
    if es != [] {
      NothingLostIff(es[..|es| - 1]);
      RunKeeps(es[..|es| - 1]);
      StepLoses(Run(es[..|es| - 1]), es[|es| - 1]);
    }
  }

  /** In every run whose page drains in time a promised frame is in exactly one
      place - held by the handoff, held early, waiting to be reported, or settled
      for good - never overwritten, and any other frame is in none. */
  lemma DrainedAccounting(es: seq<Event>, f: nat)
    requires DrainedInTime(es)
    ensures var s := Run(es);
            Count(f in s.p.scheduled && s.p.scheduled[f].shouldPresent)
            + Count(s.p.early.Some? && s.p.early.value.frame == f)
            + multiset(s.p.abandoned)[f]
            + Count(f in s.settled)
            == Count(f in s.promised)
  {
    PresentationAccounting(es, f);
    NothingLostIff(es);
  }

  // ----- A page that keeps the list short -----------------------------------

  const SLACK: nat := CAPACITY - HANDOFF_CAPACITY - 2

  /** The list a page leaves undrained never passes `SLACK` frames. */
  ghost predicate KeptShort(es: seq<Event>)
    decreases |es|
  {
    es == [] || (KeptShort(es[..|es| - 1]) && |Run(es[..|es| - 1]).p.abandoned| <= SLACK)
  }

  /** A page that never leaves more than 106 frames undrained drains in time,
      whatever happens between. */
  lemma {:induction false} ShortListsAreInTime(es: seq<Event>)
    requires KeptShort(es)
    ensures DrainedInTime(es)
    decreases |es|
  {
    if es != [] {
      var s, e := Run(es[..|es| - 1]), es[|es| - 1];
      ShortListsAreInTime(es[..|es| - 1]);
      RunFits(es[..|es| - 1]);
      RunKeeps(es[..|es| - 1]);
      if Enabled(s, e) && !e.PageDrains? {
        var n := StepSends(s, e);
        StepDiscards(s, e);
      }
    }
  }
}
