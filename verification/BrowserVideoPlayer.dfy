/** The player as the page drives it: a record whose methods update its fields
    in place. Each method is tied to the operation on the abstract value that
    the run theorems are about. */
module BrowserVideoPlayer {
  import opened Wrappers
  import opened RendererHandoff
  import opened BrowserVideoPlayout

  class BrowserVideoPlayer {
    var annexBByFrame: map<nat, Stored>
    var decodeOrder: seq<nat>
    var scheduledByFrame: map<nat, Scheduled>
    var pendingEarly: Option<Scheduled>
    var abandoned: seq<nat>
    ghost var lost: seq<nat>
    var handoff: Handoff
    var recovery: ClientIdrRecovery.Recovery
    var decodeBacklogEvicted: nat
    var framesUndecodable: nat

    ghost function State(): Playout
      reads this
    {
      Playout(annexBByFrame, decodeOrder, scheduledByFrame, pendingEarly, abandoned, lost,
              handoff, recovery, decodeBacklogEvicted, framesUndecodable)
    }

    constructor ()
      ensures State() == Fresh()
    {
      annexBByFrame, decodeOrder, scheduledByFrame := map[], [], map[];
      pendingEarly, abandoned, lost := None, [], [];
      handoff := Handoff(HANDOFF_CAPACITY, HANDOFF_DEADLINE, [], false, false);
      recovery := ClientIdrRecovery.Fresh(500_000);
      decodeBacklogEvicted, framesUndecodable := 0, 0;
    }

    method DemandRecovery(frame: nat)
      modifies this`recovery
      ensures State() == Demand(old(State()), frame)
    {
      recovery := recovery.RecordDemand(frame);
    }

    method DropLaterDependents()
      modifies this`annexBByFrame, this`framesUndecodable
      ensures annexBByFrame == DropDependents(decodeOrder, old(annexBByFrame))
      ensures framesUndecodable + |annexBByFrame| == old(framesUndecodable + |annexBByFrame|)
    {
      for i := 0 to |decodeOrder|
        invariant DropDependents(decodeOrder[i..], annexBByFrame)
               == DropDependents(decodeOrder, old(annexBByFrame))
        invariant framesUndecodable + |annexBByFrame| == old(framesUndecodable + |annexBByFrame|)
      {
        var frame := decodeOrder[i];
        assert decodeOrder[i..][1..] == decodeOrder[i + 1..];
        if frame in annexBByFrame {
          if annexBByFrame[frame].isRandomAccess { return; }
          ghost var before := annexBByFrame;
          annexBByFrame := annexBByFrame - {frame};
          assert annexBByFrame.Keys == before.Keys - {frame};
          framesUndecodable := framesUndecodable + 1;
        }
      }
    }

    /** One turn of the eviction loop. */
    method EvictOne()
      requires decodeOrder != []
      modifies this`annexBByFrame, this`decodeOrder, this`recovery,
               this`decodeBacklogEvicted, this`framesUndecodable
      ensures State() == EvictOldest(old(State()))
    {
      var oldest := decodeOrder[0];
      decodeOrder := decodeOrder[1..];
      if oldest in annexBByFrame {
        annexBByFrame := annexBByFrame - {oldest};
        ghost var rest := annexBByFrame;
        decodeBacklogEvicted := decodeBacklogEvicted + 1;
        DemandRecovery(oldest);
        DropLaterDependents();
        DropDependentsShrinks(decodeOrder, rest);
      }
    }

    method Store(unit: DecodeUnit)
      modifies this`annexBByFrame, this`decodeOrder, this`recovery,
               this`decodeBacklogEvicted, this`framesUndecodable
      ensures State() == StoreForDecode(old(State()), unit)
    {
      annexBByFrame := annexBByFrame[unit.frame := Stored(unit.annexB, unit.isRandomAccess)];
      decodeOrder := decodeOrder + [unit.frame];
      ghost var stocked := State();
      while |annexBByFrame| > CAPACITY && decodeOrder != []
        invariant EvictPastBound(State()) == EvictPastBound(stocked)
        decreases |decodeOrder|
      {
        EvictOne();
      }
      if |decodeOrder| > 4 * CAPACITY {
        decodeOrder := Live(decodeOrder, annexBByFrame);
      }
    }

    method AbandonFrame(frame: nat)
      modifies this`abandoned, this`lost
      ensures State() == Abandon(old(State()), frame)
    {
      if |abandoned| < CAPACITY {
        abandoned := abandoned + [frame];
      } else {
        lost := lost + [abandoned[0]];
        abandoned := abandoned[1..] + [frame];
      }
    }

    method AbandonEarlyFrame()
      modifies this`pendingEarly, this`abandoned, this`lost
      ensures State() == AbandonEarly(old(State()))
    {
      if pendingEarly.Some? {
        var frame := pendingEarly.value.frame;
        pendingEarly := None;
        AbandonFrame(frame);
      }
    }

    method DiscardOne(frame: nat)
      modifies this`scheduledByFrame, this`pendingEarly, this`abandoned, this`lost
      ensures State() == Discard(old(State()), frame)
    {
      if frame in scheduledByFrame {
        var scheduled := scheduledByFrame[frame];
        scheduledByFrame := scheduledByFrame - {frame};
        if scheduled.shouldPresent { AbandonFrame(frame); }
      }
      if pendingEarly.Some? && pendingEarly.value.frame == frame {
        AbandonEarlyFrame();
      }
    }

    method AbsorbOutcome(outcome: Outcome, newest: Option<nat>)
      modifies this`scheduledByFrame, this`pendingEarly, this`abandoned, this`lost, this`recovery
      ensures State() == Absorb(old(State()), outcome, newest)
    {
      for i := 0 to |outcome.discarded|
        invariant recovery == old(recovery)
        invariant DiscardAll(State(), outcome.discarded[i..]) == DiscardAll(old(State()), outcome.discarded)
      {
        assert outcome.discarded[i..][1..] == outcome.discarded[i + 1..];
        DiscardOne(outcome.discarded[i].frame);
      }
      var damaged := if newest.Some? then newest else NewestFrame(outcome.discarded);
      if outcome.recoveryRequested && damaged.Some? {
        DemandRecovery(damaged.value);
      }
    }

    method FlushQueue(frame: nat)
      modifies this
      ensures State() == Flush(old(State()), frame)
    {
      AbandonEarlyFrame();
      var (h, outcome) := handoff.FailEpisode();
      handoff := h;
      AbsorbOutcome(outcome, Some(frame));
    }

    method OfferToHandoff(frame: Scheduled, arrival: nat) returns (told: Scheduled)
      modifies this
      ensures (State(), told) == OfferFrame(old(State()), frame, arrival)
    {
      told := frame;
      var (h, outcome) := handoff.Offer(Entry(frame.frame, frame.isRandomAccess, arrival));
      handoff := h;
      if outcome.accepted {
        scheduledByFrame := scheduledByFrame[frame.frame := frame];
      } else {
        told := told.(shouldPresent := false);
      }
      AbsorbOutcome(outcome, Some(frame.frame));
    }

    method ScheduleUnit(unit: DecodeUnit, beat: Beat, arrival: nat) returns (told: Scheduled)
      modifies this
      ensures (State(), told) == Schedule(old(State()), unit, beat, arrival)
    {
      var admitted := recovery.Admits(unit.isRandomAccess);
      told := Scheduled(unit.frame, beat.presentation, unit.isRandomAccess,
                        admitted && beat.lateness == 0);
      if !admitted {
        framesUndecodable := framesUndecodable + 1;
        return;
      }
      Store(unit);
      if beat.shouldFlush { FlushQueue(unit.frame); }
      if unit.isRandomAccess { recovery := recovery.NoteUsableIrapAccepted(); }
      told := OfferToHandoff(told, arrival);
    }

    /** The beat's own expiry of the handoff. */
    method EvictStale(now: nat)
      modifies this
      ensures State() == Expire(old(State()), now)
    {
      var (h, outcome) := handoff.Expire(now);
      handoff := h;
      AbsorbOutcome(outcome, None);
    }

    method TakeBytes(frame: nat) returns (bytes: Option<Bytes>)
      modifies this`annexBByFrame
      ensures (State(), bytes) == TakeAnnexB(old(State()), frame)
    {
      bytes := None;
      if frame in annexBByFrame {
        bytes := Some(annexBByFrame[frame].annexB);
        annexBByFrame := annexBByFrame - {frame};
      }
    }

    method DrainAbandoned() returns (frames: seq<nat>)
      modifies this`abandoned
      ensures (State(), frames) == TakeAbandoned(old(State()))
    {
      frames := abandoned;
      abandoned := [];
    }

    method NoteHandOff(isRandomAccess: bool)
      modifies this`handoff
      ensures State() == NoteHandedOff(old(State()), isRandomAccess)
    {
      if isRandomAccess { handoff := handoff.NoteRandomAccessEnqueued(); }
    }

    method Pop(now: nat) returns (due: Option<Scheduled>)
      modifies this`pendingEarly, this`handoff, this`scheduledByFrame
      ensures (State(), due) == PopDue(old(State()), now)
    {
      if pendingEarly.Some? {
        var early := pendingEarly.value;
        if now < early.presentation { return None; }
        pendingEarly := None;
        NoteHandOff(early.isRandomAccess);
        return Some(early);
      }
      while handoff.entries != []
        invariant pendingEarly.None?
        invariant PopQueued(State(), now) == PopQueued(old(State()), now)
        decreases |handoff.entries|
      {
        var frame := handoff.entries[0].frame;
        handoff := handoff.(entries := handoff.entries[1..]);
        if frame in scheduledByFrame {
          var entry := scheduledByFrame[frame];
          scheduledByFrame := scheduledByFrame - {frame};
          if entry.shouldPresent {
            if now < entry.presentation {
              pendingEarly := Some(entry);
              return None;
            }
            NoteHandOff(entry.isRandomAccess);
            return Some(entry);
          }
          NoteHandOff(entry.isRandomAccess);
        }
      }
      due := None;
    }

    method PageDropped(frame: nat)
      modifies this`annexBByFrame, this`scheduledByFrame, this`pendingEarly
      ensures State() == NoteDropped(old(State()), frame)
    {
      annexBByFrame := annexBByFrame - {frame};
      scheduledByFrame := scheduledByFrame - {frame};
      if pendingEarly.Some? && pendingEarly.value.frame == frame {
        pendingEarly := None;
      }
    }
  }
}
