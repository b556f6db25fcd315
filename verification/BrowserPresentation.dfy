/** Presentation accounting: every frame the page was told to present is at any
    moment in exactly one place. */
module BrowserPresentation {
  import opened Wrappers
  import opened BrowserVideoPlayout
  import opened BrowserVideoRuns
  import opened BrowserPresentationSteps

  // ----- Pops, drops and drains ---------------------------------------------

  lemma PopDueKeeps(p: Playout, now: nat, bound: nat)
    requires Shaped(p, bound)
    ensures Shaped(PopDue(p, now).0, bound)
    ensures Inside(p) == Inside(PopDue(p, now).0) + DueOne(PopDue(p, now).1)
    ensures PopDue(p, now).1.Some? ==> PopDue(p, now).1.value.presentation <= now
  {
    if p.early.None? {
      PopQueuedKeeps(p, now, bound);
    } else if p.early.value.presentation <= now {
      NoteHandedOffKeeps(p.(early := None), p.early.value.isRandomAccess, bound);
    }
  }

  // ----- The invariant of every run -----------------------------------------

  /** Scheduling adds the frame to the player exactly when the page is told to
      present it. */
  lemma ScheduleKeeps(p: Playout, unit: DecodeUnit, beat: Beat, arrival: nat)
    requires Shaped(p, unit.frame)
    ensures var (q, told) := Schedule(p, unit, beat, arrival);
            && Shaped(q, unit.frame + 1)
            && Inside(q) == Inside(p) + (if told.shouldPresent then multiset{unit.frame} else multiset{})
            && (told.shouldPresent ==> beat.lateness == 0 && p.recovery.Admits(unit.isRandomAccess))
  {
    if !p.recovery.Admits(unit.isRandomAccess) {
      SameIsShaped(p, Schedule(p, unit, beat, arrival).0, unit.frame);
      WidenBound(Schedule(p, unit, beat, arrival).0, unit.frame, unit.frame + 1);
    } else {
      var stored := StoreForDecode(p, unit);
      StoreLeavesPresentation(p, unit);
      SameIsShaped(p, stored, unit.frame);
      FlushKeeps(stored, unit.frame, unit.frame);
      var flushed := if beat.shouldFlush then Flush(stored, unit.frame) else stored;
      var ready := CloseIfRandomAccess(flushed, unit.isRandomAccess);
      SameIsShaped(flushed, ready, unit.frame);
      var frame := Scheduled(unit.frame, beat.presentation, unit.isRandomAccess, beat.lateness == 0);
      OfferKeepsInside(ready, frame, arrival);
      var shaped := OfferKeepsShape(ready, frame, arrival);
    }
  }

  lemma AssembleKeeps(s: System, unit: DecodeUnit, beat: Beat, arrival: nat)
    requires PresentInv(s) && Enabled(s, Assembled(unit, beat, arrival))
    ensures PresentInv(Assemble(s, unit, beat, arrival))
  {
    WidenBound(s.p, Bound(s), unit.frame);
    ScheduleKeeps(s.p, unit, beat, arrival);
    var told := Schedule(s.p, unit, beat, arrival).1;
    PromiseAdds(s, Assemble(s, unit, beat, arrival), unit.frame, told.shouldPresent);
  }

  lemma PopKeeps(s: System, now: nat)
    requires PresentInv(s)
    ensures PresentInv(Pop(s, now))
  {
    PopDueKeeps(s.p, now, Bound(s));
    SettleMoves(s, Pop(s, now), DueOne(PopDue(s.p, now).1));
  }

  lemma StepKeeps(s: System, e: Event)
    requires PresentInv(s)
    ensures PresentInv(Step(s, e))
  {
    if Enabled(s, e) {
      match e
      case Assembled(unit, beat, arrival) => AssembleKeeps(s, unit, beat, arrival);
      case Skipped(through) =>
        SameIsShaped(s.p, Demand(s.p, through), Bound(s));
        WidenBound(Demand(s.p, through), Bound(s), through + 1);
      case Demanded(frame) => SameIsShaped(s.p, Demand(s.p, frame), Bound(s));
      case BeatAt(now) => ExpireKeeps(s.p, now, Bound(s));
      case PageTakes => TakeKeeps(s);
      case PageDropsBefore(index) => DropEachKeeps(s.(queue := s.queue[index..]), s.queue[..index]);
      case PagePops(now) => PopKeeps(s, now);
      case PageDrains => DrainKeeps(s);
    }
  }

  lemma {:induction false} RunKeeps(es: seq<Event>)
    ensures PresentInv(Run(es))
  {
    if es != [] {
      RunKeeps(es[..|es| - 1]);
      StepKeeps(Run(es[..|es| - 1]), es[|es| - 1]);
    }
  }

  /** In how many places a frame is right now. */
  function Places(s: System, f: nat): nat {
    Count(f in s.p.scheduled && s.p.scheduled[f].shouldPresent)
    + Count(s.p.early.Some? && s.p.early.value.frame == f)
    + multiset(s.p.abandoned)[f] + multiset(s.p.lost)[f]
    + Count(f in s.settled)
  }

  /** In every run a promised frame is in exactly one place - held by the
      handoff, held early, waiting to be reported, overwritten unreported,
      popped as due, reported, or dropped by the page - and any other frame in
      none. */
  lemma PresentationAccounting(es: seq<Event>, f: nat)
    ensures Places(Run(es), f) == Count(f in Run(es).promised)
  {
    RunKeeps(es);
    var s := Run(es);
    assert multiset(s.promised)[f] == Inside(s.p)[f] + multiset(s.settled.Keys)[f];
  }
}
