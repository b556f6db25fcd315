/** The jitter buffer as its receiver drives it: a class whose methods update
    its fields, each tied to the operation on the abstract value. */
module AudioJitterPlayer {
  import opened Wrappers
  import opened AudioTarget
  import opened AudioJitterBuffer
  import opened IntSets

  class AudioJitterPlayer {
    const cfg: Config
    var pending: map<int, Packet>
    var started: bool
    var nextNumber: int
    var lastPlayedNumber: Option<int>
    var consecutiveConcealments: nat
    var announcedQuiet: bool
    var rewindFloor: Option<int>
    var adaptation: Adaptation
    var stats: Stats

    ghost function State(): Buffer
      reads this
    {
      Buffer(cfg, pending, started, nextNumber, lastPlayedNumber, consecutiveConcealments,
             announcedQuiet, rewindFloor, adaptation, stats)
    }

    constructor (cfg: Config, initial: nat)
      ensures State() == AudioJitterBuffer.Fresh(cfg, initial)
    {
      this.cfg := cfg;
      pending, started, nextNumber, lastPlayedNumber := map[], false, 0, None;
      consecutiveConcealments, announcedQuiet, rewindFloor := 0, false, None;
      adaptation := AudioTarget.Fresh(initial);
      stats := Stats(0, 0, 0, 0, 0, 0, 0, 0, 0);
    }

    method QuietAnnounced()
      modifies this`announcedQuiet, this`adaptation
      ensures State() == NoteAnnouncedQuiet(old(State()))
    {
      announcedQuiet := true;
      adaptation := ResetWindows(adaptation);
    }

    method Least(keys: set<int>) returns (least: int)
      requires keys != {}
      ensures IsLeast(least, keys)
    {
      ghost var any := Oldest(keys);
      least :| least in keys;
      var rest := keys - {least};
      while rest != {}
        invariant rest <= keys && least in keys
        invariant forall k :: k in keys && k !in rest ==> least <= k
        decreases |rest|
      {
        ghost var any := Oldest(rest);
        var k: int :| k in rest;
        rest := rest - {k};
        if k < least { least := k; }
      }
    }

    method Greatest(keys: set<int>) returns (greatest: int)
      requires keys != {}
      ensures IsGreatest(greatest, keys)
    {
      ghost var any := Oldest(keys);
      greatest :| greatest in keys;
      var rest := keys - {greatest};
      while rest != {}
        invariant rest <= keys && greatest in keys
        invariant forall k :: k in keys && k !in rest ==> k <= greatest
        decreases |rest|
      {
        ghost var any := Oldest(rest);
        var k: int :| k in rest;
        rest := rest - {k};
        if k > greatest { greatest := k; }
      }
    }

    method Trim()
      modifies this`pending, this`stats
      ensures State() == TrimToTarget(old(State()))
    {
      while |pending| > adaptation.target && pending.Keys != {}
        invariant TrimToTarget(State()) == TrimToTarget(old(State()))
        decreases |pending|
      {
        TrimOne();
      }
    }

    method TrimOne()
      requires |pending| > adaptation.target && pending.Keys != {}
      modifies this`pending, this`stats
      ensures |pending| < |old(pending)|
      ensures TrimToTarget(State()) == TrimToTarget(old(State()))
    {
      var oldest := Least(pending.Keys);
      assert (pending - {oldest}).Keys == pending.Keys - {oldest};
      pending := pending - {oldest};
      stats := stats.(droppedBeforePlayout := stats.droppedBeforePlayout + 1);
    }

    /** Removes the keys below `bound`, in whatever order they come. */
    method DropBelow(bound: int) returns (dropped: nat)
      modifies this`pending
      ensures pending == old(pending) - Below(old(pending), bound)
      ensures dropped == |Below(old(pending), bound)|
    {
      dropped := 0;
      var keys := pending.Keys;
      ghost var gone: set<int> := {};
      while keys != {}
        invariant keys <= old(pending).Keys && gone <= Below(old(pending), bound)
        invariant keys !! gone
        invariant forall k :: k in Below(old(pending), bound) ==> k in keys || k in gone
        invariant pending == old(pending) - gone && dropped == |gone|
        decreases |keys|
      {
        ghost var any := Oldest(keys);
        var k: int :| k in keys;
        keys := keys - {k};
        if k < bound {
          pending := pending - {k};
          gone := gone + {k};
          dropped := dropped + 1;
          assert pending == old(pending) - gone;
        }
      }
      assert gone == Below(old(pending), bound);
    }

    method Recenter()
      modifies this
      ensures State() == RecenterIfOvergrown(old(State()))
    {
      if |pending| <= cfg.HardCap() || pending.Keys == {} { return; }
      var newest := Greatest(pending.Keys);
      assert newest == Newest(pending.Keys);
      var newNext := newest - adaptation.target + 1;
      if newNext <= nextNumber { return; }
      SkipAhead(newNext);
    }

    method SkipAhead(newNext: int)
      modifies this
      ensures State() == SkipTo(old(State()), newNext)
    {
      var dropped := DropBelow(newNext);
      nextNumber := newNext;
      consecutiveConcealments := 0;
      rewindFloor := None;
      stats := stats.(recenters := stats.recenters + 1,
                      droppedInRecenter := stats.droppedInRecenter + dropped);
    }

    /** A pending number, in no particular order. */
    method FirstPending() returns (first: int)
      ensures pending.Keys != {} ==> first in pending
    {
      first := 0;
      if pending.Keys != {} {
        ghost var any := Oldest(pending.Keys);
        first :| first in pending.Keys;
      }
    }

    /** A packet that is neither late nor a duplicate. */
    method JoinBuffer(p: Packet, arrival: int, first: int)
      requires Usable(State())
      modifies this
      ensures State() == Join(old(State()), p, arrival, first)
    {
      if !started && first in pending {
        if Distance(p.number, first) > cfg.HardCap() {
          stats := stats.(droppedInRecenter := stats.droppedInRecenter + |pending|);
          pending := map[];
          adaptation := ResetWindows(adaptation);
        }
      }
      assert State() == Reprime(old(State()), p, first);
      adaptation := NoteFresh(adaptation, cfg, started, p.number, p.recovered, arrival);
      pending := pending[p.number := p];
      if started { Recenter(); } else { Trim(); }
    }

    method SortIn(p: Packet, arrival: int, first: int)
      requires Usable(State())
      modifies this
      ensures State() == Sort(old(State()), p, arrival, first)
    {
      if started && p.number < nextNumber {
        if !p.recovered && rewindFloor.Some? && p.number >= rewindFloor.value {
          nextNumber := p.number;
        } else {
          adaptation := Deepen(adaptation, cfg, nextNumber - p.number);
          stats := stats.(late := stats.late + 1);
          return;
        }
      }
      assert State() == Rewind(old(State()), p);
      if p.number in pending {
        stats := stats.(duplicates := stats.duplicates + 1);
        return;
      }
      JoinBuffer(p, arrival, first);
    }

    /** The number compared before playout is whichever pending one comes first;
        `pick` says which it was. */
    method ReceivePacket(p: Packet, arrival: int) returns (ghost pick: int)
      requires Usable(State())
      modifies this
      ensures old(pending).Keys != {} ==> pick in old(pending)
      ensures State() == Insert(old(State()), p, arrival, pick)
    {
      var first := FirstPending();
      pick := first;
      stats := stats.(inserted := stats.inserted + 1);
      WakeOn(p);
      SortIn(p, arrival, first);
    }

    method WakeOn(p: Packet)
      modifies this`announcedQuiet, this`adaptation, this`nextNumber, this`rewindFloor
      ensures State() == Wake(old(State()), p)
    {
      if announcedQuiet && !p.recovered
         && (lastPlayedNumber.None? || p.number > lastPlayedNumber.value) {
        announcedQuiet := false;
        adaptation := adaptation.(burstEnd := Some(p.number + cfg.HardCap()));
        if pending.Keys == {} {
          nextNumber := p.number;
          rewindFloor := if lastPlayedNumber.Some? then Some(lastPlayedNumber.value + 1) else None;
        }
      }
    }

    method ResumeAt(number: int) returns (v: Verdict)
      requires number in pending
      modifies this
      ensures (State(), v) == Resume(old(State()), number)
    {
      stats := stats.(recenters := stats.recenters + 1);
      consecutiveConcealments := 0;
      rewindFloor := None;
      v := Play(pending[number]);
      pending := pending - {number};
      lastPlayedNumber := Some(number);
      nextNumber := number + 1;
      stats := stats.(played := stats.played + 1);
    }

    method ConcealOr() returns (v: Verdict)
      modifies this
      ensures (State(), v) == ConcealOrGoQuiet(old(State()))
    {
      if consecutiveConcealments >= cfg.maxConceals {
        stats := stats.(starved := stats.starved + 1);
        return Starved;
      }
      consecutiveConcealments := consecutiveConcealments + 1;
      stats := stats.(plc := stats.plc + 1);
      v := Conceal(nextNumber);
      nextNumber := nextNumber + 1;
    }

    method PullVerdict(urgent: bool) returns (v: Verdict)
      modifies this
      ensures (State(), v) == Pull(old(State()), urgent)
    {
      if !started {
        if |pending| < adaptation.target || pending.Keys == {} { return Starved; }
        var oldest := Least(pending.Keys);
        assert oldest == Oldest(pending.Keys);
        started := true;
        nextNumber := oldest;
      }
      if nextNumber in pending {
        v := Play(pending[nextNumber]);
        pending := pending - {nextNumber};
        lastPlayedNumber := Some(nextNumber);
        nextNumber := nextNumber + 1;
        consecutiveConcealments := 0;
        rewindFloor := None;
        stats := stats.(played := stats.played + 1);
        return;
      }
      if pending.Keys == {} {
        if !urgent || announcedQuiet {
          stats := stats.(starved := stats.starved + 1);
          return Starved;
        }
        v := ConcealOr();
        if v.Conceal? && rewindFloor.None? { rewindFloor := Some(v.number); }
        return;
      }
      v := PullOverGap(urgent);
    }

    method PullOverGap(urgent: bool) returns (v: Verdict)
      requires pending.Keys != {}
      modifies this
      ensures (State(), v) == PullGap(old(State()), Oldest(old(pending).Keys), urgent)
    {
      var oldest := Least(pending.Keys);
      assert oldest == Oldest(pending.Keys);
      if oldest - nextNumber >= cfg.recenterJump {
        v := ResumeAt(oldest);
        return;
      }
      if !urgent {
        stats := stats.(starved := stats.starved + 1);
        return Starved;
      }
      if consecutiveConcealments >= cfg.maxConceals {
        v := ResumeAt(oldest);
        return;
      }
      rewindFloor := None;
      v := ConcealOr();
    }
  }
}
