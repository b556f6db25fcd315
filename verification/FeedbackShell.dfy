/** The reporter in its mutable form. */
module FeedbackShell {
  import opened Wrappers
  import opened ClientFeedbackReporter

  /** The deltas that fit the wire's field, and how many do not. */
  method TakeDeltas(arrivals: seq<nat>, base: nat) returns (samples: seq<nat>, dropped: nat)
    requires forall i :: 0 <= i < |arrivals| ==> base <= arrivals[i]
    ensures samples == Deltas(arrivals, base) && dropped == |arrivals| - |samples|
  {
    samples, dropped := [], 0;
    var i := 0;
    while i < |arrivals|
      invariant 0 <= i <= |arrivals| && dropped == i - |samples|
      invariant samples + Deltas(arrivals[i..], base) == Deltas(arrivals, base)
    {
      assert arrivals[i..][1..] == arrivals[i + 1..];
      var delta := arrivals[i] - base;
      if delta > MAX_DELTA {
        dropped := dropped + 1;
      } else {
        samples := samples + [delta];
      }
      i := i + 1;
    }
    assert samples + Deltas(arrivals[i..], base) == samples;
  }

  class FeedbackShell {
    var pendingNacks: seq<int>
    var lastReportAt: Option<nat>
    var lastNewsAt: Option<nat>
    var lastReportedLedgers: Ledgers
    var nackEntriesSent: nat
    var samplesReported: nat
    var samplesDecimated: nat

    ghost function State(): Reporter
      reads this
    {
      Reporter(pendingNacks, lastReportAt, lastNewsAt, lastReportedLedgers,
               nackEntriesSent, samplesReported, samplesDecimated)
    }

    constructor ()
      ensures State() == Fresh()
    {
      pendingNacks, lastReportAt, lastNewsAt, lastReportedLedgers := [], None, None, [];
      nackEntriesSent, samplesReported, samplesDecimated := 0, 0, 0;
    }

    method EnqueueNacks(entries: seq<int>)
      modifies this`pendingNacks
      ensures State() == Enqueue(old(State()), entries)
    {
      pendingNacks := pendingNacks + entries;
      if |pendingNacks| > PENDING_NACK_CAP {
        pendingNacks := pendingNacks[|pendingNacks| - PENDING_NACK_CAP..];
      }
    }

    method BeatIsDue(ledgers: Ledgers, arrivals: seq<nat>, idleFeedback: bool, now: nat) returns (due: bool)
      ensures due == IsDue(State(), ledgers, arrivals, idleFeedback, now)
    {
      if !idleFeedback || lastReportAt.None? { return true; }
      var last := lastReportAt.value;
      var echoDue := false;
      if lastNewsAt.Some? {
        var news := lastNewsAt.value;
        echoDue := (now >= news + FIRST_ECHO && last < news + FIRST_ECHO)
                   || (now >= news + SECOND_ECHO && last < news + SECOND_ECHO);
      }
      due := arrivals != [] || pendingNacks != [] || ledgers != lastReportedLedgers || echoDue
             || now - last >= HEARTBEAT;
    }

    /** Arrivals to deltas from the earliest; overflow is decimated evenly. */
    method Disperse(arrivals: seq<nat>) returns (samples: seq<nat>)
      modifies this`samplesReported, this`samplesDecimated
      ensures samples == Dispersion(arrivals).0
      ensures samplesReported == old(samplesReported) + |samples|
      ensures samplesDecimated == old(samplesDecimated) + Dispersion(arrivals).1
    {
      if arrivals == [] { return []; }
      var deltas, dropped := TakeDeltas(arrivals, Least(arrivals));
      samples := Decimated(deltas);
      dropped := dropped + (|deltas| - |samples|);
      samplesReported := samplesReported + |samples|;
      samplesDecimated := samplesDecimated + dropped;
    }

    method MakeReport(ledgers: Ledgers, arrivals: seq<nat>, now: nat) returns (sent: seq<int>, samples: seq<nat>)
      modifies this
      ensures (State(), sent) == Report(old(State()), ledgers, arrivals, now)
      ensures samples == Dispersion(arrivals).0
    {
      if arrivals != [] || pendingNacks != [] || ledgers != lastReportedLedgers {
        lastNewsAt := Some(now);
      }
      lastReportAt, lastReportedLedgers := Some(now), ledgers;
      sent := pendingNacks[..Capped(|pendingNacks|, MAX_NACK_ENTRIES)];
      pendingNacks := pendingNacks[|sent|..];
      nackEntriesSent := nackEntriesSent + |sent|;
      samples := Disperse(arrivals);
    }
  }
}
