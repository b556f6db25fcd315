/** The steps behind the abandoned ring. Each discard sends one frame to it; it
    keeps the newest up to its capacity and overwrites the rest. What an event
    discards is counted on the state before it, and never passes the handoff's
    queue, the early frame and the frame that came in. */
module BrowserAbandonSteps {
  import opened Wrappers
  import opened RendererHandoff
  import opened BrowserVideoPlayout
  import opened BrowserVideoRuns
  import opened BrowserPresentationSteps

  // ----- What a step sends to the ring --------------------------------------

  /** Every frame the ring took since the last drain, and every one it lost. */
  function Ringed(p: Playout): nat {
    |p.abandoned| + |p.lost|
  }

  /** `q` is `p` with `n` more frames sent to the ring: it keeps the newest of
      them, up to its capacity, and overwrites the rest. */
  predicate Sends(p: Playout, q: Playout, n: nat) {
    && |q.abandoned| == (if |p.abandoned| + n <= CAPACITY then |p.abandoned| + n else CAPACITY)
    && |q.lost| == |p.lost| + (if |p.abandoned| + n <= CAPACITY then 0 else |p.abandoned| + n - CAPACITY)
  }

  lemma DiscardSends(p: Playout, frame: nat) returns (n: nat)
    requires |p.abandoned| <= CAPACITY
    ensures Sends(p, Discard(p, frame), n)
    ensures n + Count(Discard(p, frame).early.Some?) <= 1 + Count(p.early.Some?)
  {
    n := Ringed(Discard(p, frame)) - Ringed(p);
  }

  lemma {:induction false} DiscardAllSends(p: Playout, discarded: seq<Entry>) returns (n: nat)
    requires |p.abandoned| <= CAPACITY
    ensures Sends(p, DiscardAll(p, discarded), n)
    ensures n + Count(DiscardAll(p, discarded).early.Some?) <= |discarded| + Count(p.early.Some?)
    decreases |discarded|
  {
    n := 0;
    if discarded != [] {
      var first := DiscardSends(p, discarded[0].frame);
      var rest := DiscardAllSends(Discard(p, discarded[0].frame), discarded[1..]);
      n := first + rest;
    }
  }

  lemma AbsorbSends(p: Playout, o: Outcome, newest: Option<nat>) returns (n: nat)
    requires |p.abandoned| <= CAPACITY
    ensures Sends(p, Absorb(p, o, newest), n)
    ensures n + Count(Absorb(p, o, newest).early.Some?) <= |o.discarded| + Count(p.early.Some?)
  {
    n := DiscardAllSends(p, o.discarded);
  }

  lemma FlushSends(p: Playout, frame: nat) returns (n: nat)
    requires |p.abandoned| <= CAPACITY
    ensures Sends(p, Flush(p, frame), n)
    ensures n <= |p.handoff.entries| + 1 && Flush(p, frame).early.None?
    ensures Flush(p, frame).handoff.entries == []
  {
    FlushClears(p, frame);
    var q := AbandonEarly(p);
    var (h, o) := q.handoff.FailEpisode();
    var m := AbsorbSends(q.(handoff := h), o, Some(frame));
    n := m + Count(p.early.Some?);
  }

  lemma {:induction false} DiscardAllLeaves(p: Playout, discarded: seq<Entry>)
    ensures DiscardAll(p, discarded).handoff == p.handoff
    ensures p.early.None? ==> DiscardAll(p, discarded).early.None?
    decreases |discarded|
  {
    if discarded != [] { DiscardAllLeaves(Discard(p, discarded[0].frame), discarded[1..]); }
  }

  lemma FlushClears(p: Playout, frame: nat)
    ensures Flush(p, frame).early.None? && Flush(p, frame).handoff.entries == []
    ensures Flush(p, frame).handoff.capacity == p.handoff.capacity && Flush(p, frame).handoff.Valid()
    ensures Flush(p, frame).handoff.awaiting && !Flush(p, frame).handoff.pending
  {
    var q := AbandonEarly(p);
    var (h, o) := q.handoff.FailEpisode();
    DiscardAllLeaves(q.(handoff := h), o.discarded);
  }

  lemma OfferSends(p: Playout, frame: Scheduled, arrival: nat) returns (n: nat)
    requires |p.abandoned| <= CAPACITY
    ensures Sends(p, OfferFrame(p, frame, arrival).0, n)
    ensures n <= |p.handoff.entries| + 1 + Count(p.early.Some?)
  {
    var entry := Entry(frame.frame, frame.isRandomAccess, arrival);
    var (h, o) := p.handoff.Offer(entry);
    var q := p.(handoff := h,
                scheduled := if o.accepted then p.scheduled[frame.frame := frame] else p.scheduled);
    n := AbsorbSends(q, o, Some(frame.frame));
    assert |o.discarded| <= |p.handoff.entries| + 1;
  }

  lemma ScheduleSends(p: Playout, unit: DecodeUnit, beat: Beat, arrival: nat) returns (n: nat)
    requires |p.abandoned| <= CAPACITY
    ensures Sends(p, Schedule(p, unit, beat, arrival).0, n) && n <= |p.handoff.entries| + 2
  {
    n := 0;
    if p.recovery.Admits(unit.isRandomAccess) {
      var stored := StoreForDecode(p, unit);
      StoreLeavesPresentation(p, unit);
      var m := FlushSends(stored, unit.frame);
      if !beat.shouldFlush { m := 0; }
      var flushed := if beat.shouldFlush then Flush(stored, unit.frame) else stored;
      var frame := Scheduled(unit.frame, beat.presentation, unit.isRandomAccess, beat.lateness == 0);
      var k := OfferSends(CloseIfRandomAccess(flushed, unit.isRandomAccess), frame, arrival);
      n := m + k;
    }
  }

  lemma ExpireSends(p: Playout, now: nat) returns (n: nat)
    requires |p.abandoned| <= CAPACITY
    ensures Sends(p, Expire(p, now), n) && n <= |p.handoff.entries| + 1
  {
    var (h, o) := p.handoff.Expire(now);
    n := AbsorbSends(p.(handoff := h), o, None);
  }

  lemma {:induction false} PopSends(p: Playout, now: nat)
    ensures PopQueued(p, now).0.abandoned == p.abandoned && PopQueued(p, now).0.lost == p.lost
    decreases |p.handoff.entries|
  {
    if p.handoff.entries != [] {
      var frame := p.handoff.entries[0].frame;
      var q := p.(handoff := p.handoff.(entries := p.handoff.entries[1..]));
      if frame !in q.scheduled {
        PopSends(q, now);
      } else if !q.scheduled[frame].shouldPresent {
        PopSends(NoteHandedOff(q.(scheduled := q.scheduled - {frame}), q.scheduled[frame].isRandomAccess), now);
      }
    }
  }

  lemma {:induction false} DropEachSends(s: System, frames: seq<nat>)
    ensures DropEach(s, frames).p.abandoned == s.p.abandoned && DropEach(s, frames).p.lost == s.p.lost
    decreases |frames|
  {
    if frames != [] { DropEachSends(DropOne(s, frames[0]), frames[1..]); }
  }

  /** What one event sends to the ring: at most the handoff's queue, the early
      frame and the frame that came in. */
  lemma StepSends(s: System, e: Event) returns (n: nat)
    requires |s.p.abandoned| <= CAPACITY && !e.PageDrains?
    ensures Sends(s.p, Step(s, e).p, n) && n <= |s.p.handoff.entries| + 2
  {
    n := 0;
    if Enabled(s, e) {
      match e
      case Assembled(unit, beat, arrival) => n := ScheduleSends(s.p, unit, beat, arrival);
      case Skipped(through) =>
      case Demanded(frame) =>
      case BeatAt(now) => n := ExpireSends(s.p, now);
      case PageTakes =>
      case PageDropsBefore(index) => DropEachSends(s.(queue := s.queue[index..]), s.queue[..index]);
      case PagePops(now) => PopSends(s.p, now);
    }
  }

  // ----- How much that is, before the event ---------------------------------

  /** The handoff would drop its whole queue for the frame coming in. */
  predicate Overwhelmed(h: Handoff, arrival: nat) {
    !(h.awaiting && !h.pending) && (|h.entries| >= h.capacity || h.Expired(arrival))
  }

  /** Promises waiting in the handoff. */
  function Queued(p: Playout): nat {
    |Held(p.scheduled)|
  }

  /** How many promises the event abandons: all that wait when the beat policy
      flushes, the queued ones when the handoff gives its queue up, none else. */
  function Discards(p: Playout, e: Event): nat {
    match e
    case Assembled(unit, beat, arrival) =>
      if !p.recovery.Admits(unit.isRandomAccess) then 0
      else if beat.shouldFlush then Queued(p) + Count(p.early.Some?)
      else if Overwhelmed(p.handoff, arrival) then Queued(p)
      else 0
    case BeatAt(now) => if p.handoff.Expired(now) then Queued(p) else 0
    case _ => 0
  }

  lemma InsideSize(p: Playout)
    ensures |Inside(p)| == Queued(p) + Count(p.early.Some?) + Ringed(p)
  {}

  lemma {:induction false} FramesSnoc(entries: seq<Entry>, e: Entry)
    ensures FramesOf(entries + [e]) == FramesOf(entries) + {e.frame}
    decreases |entries|
  {
    if entries == [] {
      assert entries + [e] == [e];
    } else {
      FramesSnoc(entries[1..], e);
      assert (entries + [e])[1..] == entries[1..] + [e];
    }
  }

  /** An offer discards the whole queue or none of it, and the newcomer if it is
      refused. */
  lemma OfferOutcome(h: Handoff, e: Entry)
    requires h.Valid()
    ensures var o := h.Offer(e).1;
      FramesOf(o.discarded) == (if Overwhelmed(h, e.submitted) then FramesOf(h.entries) else {})
                               + (if o.accepted then {} else {e.frame})
  {
    FramesSnoc(h.entries, e);
    FramesSnoc([], e);
    assert [] + [e] == [e];
  }

  lemma HeldLess(scheduled: map<nat, Scheduled>, gone: set<nat>)
    ensures Held(scheduled - gone) == Held(scheduled) - gone
  {}

  lemma HeldMore(scheduled: map<nat, Scheduled>, frame: Scheduled)
    requires frame.frame !in scheduled
    ensures Held(scheduled[frame.frame := frame])
         == Held(scheduled) + (if frame.shouldPresent then {frame.frame} else {})
  {}

  lemma QueuedFrames(p: Playout, bound: nat)
    requires Shaped(p, bound)
    ensures p.handoff.Valid() && Held(p.scheduled) <= FramesOf(p.handoff.entries)
    ensures bound !in FramesOf(p.handoff.entries) && bound !in p.scheduled
  {}

  lemma OfferQueues(p: Playout, frame: Scheduled, arrival: nat)
    requires Shaped(p, frame.frame)
    ensures var (q, told) := OfferFrame(p, frame, arrival);
            && q.early == p.early
            && Held(q.scheduled) == (if Overwhelmed(p.handoff, arrival) then {} else Held(p.scheduled))
                                    + (if told.shouldPresent then {frame.frame} else {})
            && frame.frame !in Held(p.scheduled)
  {
    OfferAbsorbs(p, frame, arrival);
    QueuedFrames(p, frame.frame);
    OfferOutcome(p.handoff, Entry(frame.frame, frame.isRandomAccess, arrival));
    HeldMore(p.scheduled, frame);
    var (r, o) := Offered(p, frame, arrival);
    HeldLess(r.scheduled, FramesOf(o.discarded));
  }

  lemma OfferDiscards(p: Playout, frame: Scheduled, arrival: nat)
    requires Shaped(p, frame.frame)
    ensures Ringed(OfferFrame(p, frame, arrival).0)
         == Ringed(p) + (if Overwhelmed(p.handoff, arrival) then Queued(p) else 0)
  {
    var (q, told) := OfferFrame(p, frame, arrival);
    OfferQueues(p, frame, arrival);
    OfferKeepsInside(p, frame, arrival);
    InsideSize(p);
    InsideSize(q);
  }

  lemma FlushDiscards(p: Playout, frame: nat)
    requires p.scheduled.Keys <= FramesOf(p.handoff.entries)
    ensures Ringed(Flush(p, frame)) == Ringed(p) + Queued(p) + Count(p.early.Some?)
  {
    FlushEmpties(p, frame);
    InsideSize(p);
    InsideSize(Flush(p, frame));
    assert Held(Flush(p, frame).scheduled) == {};
  }

  lemma ScheduleDiscards(p: Playout, unit: DecodeUnit, beat: Beat, arrival: nat)
    requires Shaped(p, unit.frame)
    ensures Ringed(Schedule(p, unit, beat, arrival).0) == Ringed(p) + Discards(p, Assembled(unit, beat, arrival))
  {
    if p.recovery.Admits(unit.isRandomAccess) {
      var stored := StoreForDecode(p, unit);
      StoreLeavesPresentation(p, unit);
      SameIsShaped(p, stored, unit.frame);
      FlushDiscards(stored, unit.frame);
      FlushClears(stored, unit.frame);
      FlushKeeps(stored, unit.frame, unit.frame);
      var flushed := if beat.shouldFlush then Flush(stored, unit.frame) else stored;
      var ready := CloseIfRandomAccess(flushed, unit.isRandomAccess);
      SameIsShaped(flushed, ready, unit.frame);
      OfferDiscards(ready, Scheduled(unit.frame, beat.presentation, unit.isRandomAccess, beat.lateness == 0), arrival);
    }
  }

  lemma ExpireQueues(p: Playout, now: nat, bound: nat)
    requires Shaped(p, bound)
    ensures var q := Expire(p, now);
            q.early == p.early && Held(q.scheduled) == if p.handoff.Expired(now) then {} else Held(p.scheduled)
  {
    var (h, o) := p.handoff.Expire(now);
    QueuedFrames(p, bound);
    AbsorbKeeps(p.(handoff := h), o, None);
    assert o.discarded == if p.handoff.Expired(now) then p.handoff.entries else [];
    HeldLess(p.scheduled, FramesOf(o.discarded));
  }

  lemma ExpireDiscards(p: Playout, now: nat, bound: nat)
    requires Shaped(p, bound)
    ensures Ringed(Expire(p, now)) == Ringed(p) + Discards(p, BeatAt(now))
  {
    ExpireKeeps(p, now, bound);
    ExpireQueues(p, now, bound);
    InsideSize(p);
    InsideSize(Expire(p, now));
  }

  // ----- A page that keeps the list short -----------------------------------

  lemma {:induction false} PopShortens(p: Playout, now: nat)
    ensures |PopQueued(p, now).0.handoff.entries| <= |p.handoff.entries|
    ensures PopQueued(p, now).0.handoff.capacity == p.handoff.capacity
    ensures p.handoff.Valid() ==> PopQueued(p, now).0.handoff.Valid()
    decreases |p.handoff.entries|
  {
    if p.handoff.entries != [] {
      var frame := p.handoff.entries[0].frame;
      var q := p.(handoff := p.handoff.(entries := p.handoff.entries[1..]));
      if frame !in q.scheduled {
        PopShortens(q, now);
      } else if !q.scheduled[frame].shouldPresent {
        PopShortens(NoteHandedOff(q.(scheduled := q.scheduled - {frame}), q.scheduled[frame].isRandomAccess), now);
      }
    }
  }

  ghost predicate Fits(p: Playout) {
    p.handoff.Valid() && p.handoff.capacity == HANDOFF_CAPACITY && |p.handoff.entries| <= HANDOFF_CAPACITY
  }

  lemma OfferFits(p: Playout, frame: Scheduled, arrival: nat)
    requires Fits(p)
    ensures Fits(OfferFrame(p, frame, arrival).0)
  {
    var (h, o) := p.handoff.Offer(Entry(frame.frame, frame.isRandomAccess, arrival));
    var q := p.(handoff := h,
                scheduled := if o.accepted then p.scheduled[frame.frame := frame] else p.scheduled);
    DiscardAllLeaves(q, o.discarded);
  }

  lemma ScheduleFits(p: Playout, unit: DecodeUnit, beat: Beat, arrival: nat)
    requires Fits(p)
    ensures Fits(Schedule(p, unit, beat, arrival).0)
  {
    if p.recovery.Admits(unit.isRandomAccess) {
      var stored := StoreForDecode(p, unit);
      StoreLeavesPresentation(p, unit);
      FlushClears(stored, unit.frame);
      var flushed := if beat.shouldFlush then Flush(stored, unit.frame) else stored;
      var frame := Scheduled(unit.frame, beat.presentation, unit.isRandomAccess, beat.lateness == 0);
      OfferFits(CloseIfRandomAccess(flushed, unit.isRandomAccess), frame, arrival);
    }
  }

  lemma {:induction false} DropEachFits(s: System, frames: seq<nat>)
    requires Fits(s.p)
    ensures Fits(DropEach(s, frames).p)
    decreases |frames|
  {
    if frames != [] { DropEachFits(DropOne(s, frames[0]), frames[1..]); }
  }

  lemma StepFits(s: System, e: Event)
    requires Fits(s.p)
    ensures Fits(Step(s, e).p)
  {
    if Enabled(s, e) {
      match e
      case Assembled(unit, beat, arrival) => ScheduleFits(s.p, unit, beat, arrival);
      case Skipped(through) =>
      case Demanded(frame) =>
      case BeatAt(now) =>
        var (h, o) := s.p.handoff.Expire(now);
        DiscardAllLeaves(s.p.(handoff := h), o.discarded);
      case PageTakes =>
      case PageDropsBefore(index) => DropEachFits(s.(queue := s.queue[index..]), s.queue[..index]);
      case PagePops(now) => PopShortens(s.p, now);
      case PageDrains =>
    }
  }

  lemma {:induction false} RunFits(es: seq<Event>)
    ensures Fits(Run(es).p)
    decreases |es|
  {
    if es != [] {
      RunFits(es[..|es| - 1]);
      StepFits(Run(es[..|es| - 1]), es[|es| - 1]);
    }
  }
}
