/** Decode closure: the decoder is never handed a frame whose reference chain
    is broken, whatever is skipped, evicted, demanded or dropped. */
module BrowserDecodeClosure {
  import opened Wrappers
  import opened BrowserVideoPlayout
  import opened BrowserVideoRuns
  import opened BrowserDecodeSteps

  // ----- Evictions keep the backlog chained ---------------------------------

  /** Exactly the backlog from its first random-access frame on survives. */
  lemma {:induction false} DropDependentsCut(order: seq<nat>, backlog: Backlog) returns (key: Option<nat>)
    requires Increasing(order) && backlog.Keys <= Elems(order)
    ensures CutAt(DropDependents(order, backlog), backlog, key)
  {
    if order == [] {
      key := None;
    } else if order[0] in backlog && backlog[order[0]].isRandomAccess {
      key := Some(order[0]);
    } else if order[0] in backlog {
      key := DropDependentsCut(order[1..], backlog - {order[0]});
    } else {
      key := DropDependentsCut(order[1..], backlog);
    }
  }

  lemma EvictOldestKeepsChain(p: Playout, got: set<nat>, first: Option<nat>)
    requires Backed(p, got, first) && p.decodeOrder != []
    ensures Backed(EvictOldest(p), got, first)
    ensures forall f :: f in p.annexB && f != p.decodeOrder[0] && p.annexB[f].isRandomAccess
              ==> f in EvictOldest(p).annexB
  {
    var oldest, rest := p.decodeOrder[0], p.decodeOrder[1..];
    if oldest in p.annexB {
      var key := DropDependentsCut(rest, p.annexB - {oldest});
      CutKeepsChain(p.annexB, oldest, DropDependents(rest, p.annexB - {oldest}), key, got, first);
    }
  }

  lemma {:induction false} EvictPastBoundSheds(p: Playout, got: set<nat>, first: Option<nat>, tail: nat)
    requires Backed(p, got, first) && EndsWith(p.decodeOrder, tail)
    ensures Backed(EvictPastBound(p), got, first)
    ensures Shed(p, EvictPastBound(p))
    ensures tail in p.annexB && p.annexB[tail].isRandomAccess ==> tail in EvictPastBound(p).annexB
    ensures |EvictPastBound(p).annexB| <= CAPACITY
    ensures Elems(EvictPastBound(p).decodeOrder) <= Elems(p.decodeOrder)
    decreases |p.decodeOrder|
  {
    if |p.annexB| > CAPACITY {
      var q := EvictOldest(p);
      assert q.decodeOrder == p.decodeOrder[1..];
      ElemsSize(p.decodeOrder);
      SubsetSize(p.annexB.Keys, Elems(p.decodeOrder));
      TailIsNotHead(p.decodeOrder, tail);
      EvictOldestSheds(p);
      EvictOldestKeepsChain(p, got, first);
      EvictPastBoundSheds(q, got, first, tail);
    }
  }

  lemma StoreKeeps(p: Playout, unit: DecodeUnit, got: set<nat>, first: Option<nat>)
    requires Backed(p, got, first) && AllBelow(Elems(p.decodeOrder), unit.frame)
    requires Chained(unit.frame, unit.isRandomAccess, p.annexB.Keys + got, first)
    ensures Admitted(p, StoreForDecode(p, unit), unit, got, first)
  {
    StockedIsBacked(p, unit, got, first);
    EvictPastBoundSheds(Stocked(p, unit), got, first, unit.frame);
    CompactKeeps(EvictPastBound(Stocked(p, unit)), got, first);
  }

  // ----- Assembly -----------------------------------------------------------

  lemma ScheduleAdmits(s: System, unit: DecodeUnit, beat: Beat, arrival: nat)
    requires ClosureInv(s) && Enabled(s, Assembled(unit, beat, arrival))
    requires s.p.recovery.Admits(unit.isRandomAccess)
    ensures Admitted(s.p, Schedule(s.p, unit, beat, arrival).0, unit, Got(s.handed), FirstAfter(s, unit))
  {
    AssembleQueue(s, unit);
    BackedAfter(s, unit);
    AdmittedIsChained(s, unit);
    StoreKeeps(s.p, unit, Got(s.handed), FirstAfter(s, unit));
    ScheduleFromStored(s.p, unit, beat, arrival);
    FromStoredAdmitted(s.p, StoreForDecode(s.p, unit), Schedule(s.p, unit, beat, arrival).0,
                       unit, Got(s.handed), FirstAfter(s, unit));
  }

  lemma AdmitKeepsInv(s: System, unit: DecodeUnit, beat: Beat, arrival: nat)
    requires ClosureInv(s) && Enabled(s, Assembled(unit, beat, arrival))
    requires s.p.recovery.Admits(unit.isRandomAccess)
    ensures ClosureInv(Assemble(s, unit, beat, arrival))
  {
    var t := Assemble(s, unit, beat, arrival);
    AssembleQueue(s, unit);
    ScheduleAdmits(s, unit, beat, arrival);
    AdmittedIsFaithful(s.p, t.p, unit, Got(s.handed), FirstAfter(s, unit), s.units);
    EnqueuedKeepsQueue(s, t, unit);
    NewUnitKeepsHandedOrder(s, unit);
  }

  // ----- The theorem --------------------------------------------------------

  lemma AssembleKeepsInv(s: System, unit: DecodeUnit, beat: Beat, arrival: nat)
    requires ClosureInv(s) && Enabled(s, Assembled(unit, beat, arrival))
    ensures ClosureInv(Step(s, Assembled(unit, beat, arrival)))
  {
    if s.p.recovery.Admits(unit.isRandomAccess) {
      AdmitKeepsInv(s, unit, beat, arrival);
    } else {
      RefuseKeepsInv(s, unit, beat, arrival);
    }
  }

  lemma StepKeepsInv(s: System, e: Event)
    requires ClosureInv(s)
    ensures ClosureInv(Step(s, e))
  {
    if Enabled(s, e) {
      match e
      case Assembled(unit, beat, arrival) => AssembleKeepsInv(s, unit, beat, arrival);
      case Skipped(through) => SkipKeepsInv(s, through);
      case Demanded(frame) => ApartKeepsInv(s, Step(s, e));
      case BeatAt(now) => ExpireKeepsInv(s, now);
      case PageTakes =>
        if s.queue[0] in s.p.annexB {
          TakeKeepsInv(s);
        } else {
          TakeMissKeepsInv(s);
        }
      case PageDropsBefore(index) => DropPrefixKeepsInv(s, index);
      case PagePops(now) => PopKeepsInv(s, now);
      case PageDrains => ApartKeepsInv(s, Step(s, e));
    }
  }

  lemma {:induction false} RunKeepsInv(es: seq<Event>)
    ensures ClosureInv(Run(es))
  {
    if es == [] {
      assert Run(es).p.annexB.Keys == {};
    } else {
      RunKeepsInv(es[..|es| - 1]);
      StepKeepsInv(Run(es[..|es| - 1]), es[|es| - 1]);
    }
  }

  /** In every run each frame handed to the decoder carries its own bytes, is
      handed out once, and unless it is random access or the run's very first
      frame, the frame numbered just before it was handed out before it. */
  lemma DecodeClosure(es: seq<Event>, i: nat)
    requires i < |Run(es).handed|
    ensures var s := Run(es);
            var (frame, bytes) := s.handed[i];
            && frame in s.units && bytes == s.units[frame].annexB
            && (forall j :: 0 <= j < i ==> s.handed[j].0 != frame)
            && (s.units[frame].isRandomAccess || s.first == Some(frame)
                || exists j :: 0 <= j < i && s.handed[j].0 + 1 == frame)
  {
    RunKeepsInv(es);
    var s := Run(es);
    var frame := s.handed[i].0;
    OrderAt(s.handed, s.units, s.first, i);
    GotIs(s.handed[..i], frame);
    assert forall j :: 0 <= j < i ==> s.handed[..i][j] == s.handed[j];
    if frame > 0 {
      GotIs(s.handed[..i], frame - 1);
    }
  }

  /** The backlog stays bounded and every assembled frame is accounted for:
      handed out, waiting, evicted, undecodable, or dropped by the page. */
  lemma DecodeConservation(es: seq<Event>)
    ensures var s := Run(es);
            && |s.p.annexB| <= CAPACITY && |s.p.decodeOrder| <= 4 * CAPACITY
            && |s.units| == |s.handed| + |s.p.annexB| + s.p.evicted + s.p.undecodable + s.removed
  {
    RunKeepsInv(es);
  }
}
