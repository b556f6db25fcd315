/** The steps behind the answers: what each part of an admission does to the
    recovery, to the backlog and to what is scheduled. An eviction takes the oldest
    queued frame and those that lean on it; a flush or an overwhelmed handoff gives
    up the queue; each demands a recovery for the newest frame it hurt. */
module BrowserAdmissionSteps {
  import opened Wrappers
  import opened RendererHandoff
  import opened BrowserVideoPlayout
  import opened BrowserVideoRuns
  import opened BrowserDecodeSteps
  import opened BrowserPresentationSteps
  import Closure = BrowserDecodeClosure

  /** Waiting for a keyframe with none on its way. */
  predicate Waiting(h: Handoff) {
    h.awaiting && !h.pending
  }

  /** The queue's head has stood for its deadline. */
  predicate Stood(h: Handoff, now: nat) {
    h.entries != [] &&
    (if now > h.entries[0].submitted then now - h.entries[0].submitted else 0) >= h.deadline
  }

  /** The queue is full or has stood too long. */
  predicate Chokes(h: Handoff, arrival: nat) {
    |h.entries| >= h.capacity || Stood(h, arrival)
  }

  /** The handoff takes an inter frame. */
  predicate Takes(h: Handoff, arrival: nat) {
    !Waiting(h) && !Chokes(h, arrival)
  }

  /** A keyframe queued for decode behind some other frame. */
  ghost predicate KeyBehind(backlog: Backlog) {
    exists f, g :: f in backlog && g in backlog && g < f && backlog[f].isRandomAccess
  }

  /** The oldest frame queued for decode. */
  function OldestQueued(order: seq<nat>, backlog: Backlog): nat {
    if order == [] then 0
    else if order[0] in backlog then order[0]
    else OldestQueued(order[1..], backlog)
  }

  /** The newest frame an event hurts, on the state before it. */
  function NewDamage(s: System, e: Event): Option<nat> {
    match e
    case Skipped(through) => Some(through)
    case Demanded(frame) => Some(frame)
    case BeatAt(now) =>
      var h := s.p.handoff;
      if Stood(h, now) then Some(h.entries[|h.entries| - 1].frame) else None
    case Assembled(unit, beat, arrival) =>
      if unit.isRandomAccess then None
      else if !Waiting(s.p.handoff) && (beat.shouldFlush || Chokes(s.p.handoff, arrival)) then Some(unit.frame)
      else if |s.p.annexB| >= CAPACITY then Some(OldestQueued(s.p.decodeOrder, s.p.annexB))
      else None
    case _ => None
  }

  // ----- The recovery -------------------------------------------------------

  lemma {:induction false} DiscardAllDamages(p: Playout, discarded: seq<Entry>)
    ensures DiscardAll(p, discarded).recovery == p.recovery
    decreases |discarded|
  {
    if discarded != [] { DiscardAllDamages(Discard(p, discarded[0].frame), discarded[1..]); }
  }

  function DamageOf(p: Playout): Option<nat> {
    if p.recovery.episode.Some? then Some(p.recovery.episode.value.newestDamagedFrame) else None
  }

  function Later(newer: Option<nat>, older: Option<nat>): Option<nat> {
    if newer.Some? then newer else older
  }

  lemma AbsorbDamages(p: Playout, o: Outcome, newest: Option<nat>)
    requires newest.Some? || o.discarded != []
    ensures var damaged := if newest.Some? then newest else NewestFrame(o.discarded);
      DamageOf(Absorb(p, o, newest)) == Later(if o.recoveryRequested then damaged else None, DamageOf(p))
  {
    DiscardAllDamages(p, o.discarded);
  }

  lemma FlushDamages(p: Playout, frame: nat)
    ensures DamageOf(Flush(p, frame)) == Later(if Waiting(p.handoff) then None else Some(frame), DamageOf(p))
    ensures Waiting(Flush(p, frame).handoff)
  {
    var q := AbandonEarly(p);
    var (h, o) := q.handoff.FailEpisode();
    AbsorbDamages(q.(handoff := h), o, Some(frame));
    DiscardAllHandoff(q.(handoff := h), o.discarded);
  }

  lemma {:induction false} DiscardAllHandoff(p: Playout, discarded: seq<Entry>)
    ensures DiscardAll(p, discarded).handoff == p.handoff
    decreases |discarded|
  {
    if discarded != [] { DiscardAllHandoff(Discard(p, discarded[0].frame), discarded[1..]); }
  }

  lemma OfferDamages(p: Playout, frame: Scheduled, arrival: nat)
    requires p.handoff.Valid()
    ensures DamageOf(OfferFrame(p, frame, arrival).0) ==
      Later(if !frame.isRandomAccess && !Waiting(p.handoff) && Chokes(p.handoff, arrival)
            then Some(frame.frame) else None, DamageOf(p))
  {
    var (h, o) := p.handoff.Offer(Entry(frame.frame, frame.isRandomAccess, arrival));
    AbsorbDamages(p.(handoff := h,
                     scheduled := if o.accepted then p.scheduled[frame.frame := frame] else p.scheduled),
                  o, Some(frame.frame));
  }

  lemma {:induction false} NewestIsLast(entries: seq<Entry>)
    requires Ordered(entries) && entries != []
    ensures NewestFrame(entries) == Some(entries[|entries| - 1].frame)
  {
    if |entries| > 1 {
      NewestIsLast(entries[1..]);
      assert entries[1..][|entries| - 2] == entries[|entries| - 1];
      LastIn(entries[1..]);
    }
  }

  lemma {:induction false} LastIn(entries: seq<Entry>)
    requires entries != []
    ensures entries[|entries| - 1].frame in FramesOf(entries)
  {
    if |entries| > 1 {
      LastIn(entries[1..]);
      assert entries[1..][|entries| - 2] == entries[|entries| - 1];
    }
  }

  lemma ExpireDamages(p: Playout, now: nat, bound: nat)
    requires Shaped(p, bound)
    ensures var h := p.handoff;
      DamageOf(Expire(p, now)) ==
        Later(if Stood(h, now) then Some(h.entries[|h.entries| - 1].frame) else None, DamageOf(p))
  {
    var (h, o) := p.handoff.Expire(now);
    if p.handoff.Expired(now) {
      AbsorbDamages(p.(handoff := h), o, None);
      NewestIsLast(p.handoff.entries);
    }
  }

  // ----- Evictions ----------------------------------------------------------

  /** One frame past the bound: the oldest queued frame goes with those that lean on
      it, and a recovery is demanded for it. */
  lemma {:induction false} EvictOne(p: Playout) returns (key: Option<nat>)
    requires Logged(p.decodeOrder, p.annexB) && |p.annexB| == CAPACITY + 1
    ensures var oldest := OldestQueued(p.decodeOrder, p.annexB);
      && oldest in p.annexB && AllAbove(oldest, (p.annexB - {oldest}).Keys)
      && CutAt(EvictPastBound(p).annexB, p.annexB - {oldest}, key)
      && DamageOf(EvictPastBound(p)) == Some(oldest)
    decreases |p.decodeOrder|
  {
    assert p.annexB.Keys != {} by { assert |p.annexB.Keys| == |p.annexB|; }
    assert p.decodeOrder != [];
    var head, rest := p.decodeOrder[0], p.decodeOrder[1..];
    if head in p.annexB {
      var left := p.annexB - {head};
      assert left.Keys == p.annexB.Keys - {head};
      key := Closure.DropDependentsCut(rest, left);
      DropDependentsShrinks(rest, left);
      assert EvictPastBound(EvictOldest(p)) == EvictOldest(p);
    } else {
      key := EvictOne(p.(decodeOrder := rest));
    }
  }

  /** Storing a new frame with room for it. */
  lemma StoreWithRoom(p: Playout, unit: DecodeUnit)
    requires |p.annexB| < CAPACITY && unit.frame !in p.annexB
    ensures var q := StoreForDecode(p, unit);
      && q.annexB == p.annexB[unit.frame := Stored(unit.annexB, unit.isRandomAccess)]
      && q.undecodable == p.undecodable && q.evicted == p.evicted && q.recovery == p.recovery
  {
    var stocked := Stocked(p, unit);
    assert stocked.annexB.Keys == p.annexB.Keys + {unit.frame};
    assert EvictPastBound(stocked) == stocked;
  }

  /** Storing one more than the backlog holds. */
  lemma StoreWhenFull(p: Playout, unit: DecodeUnit)
    requires Logged(p.decodeOrder, p.annexB) && |p.annexB| == CAPACITY
    requires AllBelow(Elems(p.decodeOrder), unit.frame)
    ensures var q := StoreForDecode(p, unit);
      && (unit.frame in q.annexB <==> unit.isRandomAccess || KeyBehind(p.annexB))
      && (unit.frame in q.annexB ==> q.annexB[unit.frame] == Stored(unit.annexB, unit.isRandomAccess))
      && DamageOf(q) == Some(OldestQueued(p.decodeOrder, p.annexB))
  {
    var stocked := Stocked(p, unit);
    assert unit.frame !in p.annexB;
    assert stocked.annexB.Keys == p.annexB.Keys + {unit.frame};
    assert p.annexB.Keys != {} by { assert |p.annexB.Keys| == |p.annexB|; }
    IncreasingSnoc(p.decodeOrder, unit.frame);
    var key := EvictOne(stocked);
    OldestUnmoved(p.decodeOrder, p.annexB, unit.frame, stocked.annexB);
    KeyBehindIff(p.annexB, stocked.annexB, OldestQueued(p.decodeOrder, p.annexB), unit.frame, key,
                 EvictPastBound(stocked).annexB);
  }

  /** Storing a new frame, and what an eviction round leaves. */
  lemma StoreAnswers(p: Playout, unit: DecodeUnit) returns (q: Playout)
    requires Logged(p.decodeOrder, p.annexB) && |p.annexB| <= CAPACITY
    requires AllBelow(Elems(p.decodeOrder), unit.frame)
    ensures q == StoreForDecode(p, unit)
    ensures unit.frame in q.annexB <==> unit.isRandomAccess || |p.annexB| < CAPACITY || KeyBehind(p.annexB)
    ensures unit.frame in q.annexB ==> q.annexB[unit.frame] == Stored(unit.annexB, unit.isRandomAccess)
    ensures |p.annexB| < CAPACITY ==>
      q.annexB == p.annexB[unit.frame := Stored(unit.annexB, unit.isRandomAccess)]
      && q.undecodable == p.undecodable && q.evicted == p.evicted
    ensures DamageOf(q) == Later(if |p.annexB| >= CAPACITY then Some(OldestQueued(p.decodeOrder, p.annexB)) else None,
                                 DamageOf(p))
  {
    q := StoreForDecode(p, unit);
    if |p.annexB| == CAPACITY { StoreWhenFull(p, unit); } else { StoreWithRoom(p, unit); }
  }

  lemma {:induction false} OldestUnmoved(order: seq<nat>, backlog: Backlog, frame: nat, more: Backlog)
    requires Logged(order, backlog) && backlog.Keys != {} && frame !in Elems(order)
    requires more.Keys == backlog.Keys + {frame}
    ensures OldestQueued(order + [frame], more) == OldestQueued(order, backlog)
    ensures OldestQueued(order, backlog) in backlog
    decreases |order|
  {
    assert order != [];
    assert (order + [frame])[0] == order[0] && (order + [frame])[1..] == order[1..] + [frame];
    if order[0] !in backlog { OldestUnmoved(order[1..], backlog, frame, more); }
  }

  lemma KeyBehindIff(backlog: Backlog, more: Backlog, oldest: nat, frame: nat, key: Option<nat>, kept: Backlog)
    requires oldest in backlog && frame !in backlog && AllBelow(backlog.Keys, frame)
    requires more.Keys == backlog.Keys + {frame} && Within(backlog, more)
    requires AllAbove(oldest, (more - {oldest}).Keys) && CutAt(kept, more - {oldest}, key)
    ensures frame in kept <==> more[frame].isRandomAccess || KeyBehind(backlog)
  {
    var left := more - {oldest};
    assert frame in left;
    if KeyBehind(backlog) {
      var f, g :| f in backlog && g in backlog && g < f && backlog[f].isRandomAccess;
      assert g in more && f in more;
      assert g == oldest || g in left.Keys;
      assert f in left && left[f] == backlog[f] && f in kept;
      assert key.Some? && key.value <= f < frame;
    }
    if frame in kept && !more[frame].isRandomAccess {
      assert key.value in backlog && oldest in backlog && oldest < key.value && backlog[key.value].isRandomAccess;
    }
  }

  // ----- Whole admissions ---------------------------------------------------

  /** The handoff's answer to a frame, as the page hears it. */
  lemma OfferTells(p: Playout, frame: Scheduled, arrival: nat)
    requires Shaped(p, frame.frame)
    ensures var (q, told) := OfferFrame(p, frame, arrival);
      var taken := frame.isRandomAccess || Takes(p.handoff, arrival);
      && (frame.frame in q.scheduled <==> taken)
      && (taken ==> q.scheduled[frame.frame] == frame)
      && told == frame.(shouldPresent := taken && frame.shouldPresent)
      && q.annexB == p.annexB && q.undecodable == p.undecodable && q.evicted == p.evicted
  {
    OfferAbsorbs(p, frame, arrival);
    OfferApart(p, frame, arrival);
    OfferShapes(p.handoff, Entry(frame.frame, frame.isRandomAccess, arrival));
    NotScheduled(p, frame.frame);
    var o := Offered(p, frame, arrival).1;
    assert o.accepted <==> frame.isRandomAccess || Takes(p.handoff, arrival);
  }

  lemma NotScheduled(p: Playout, bound: nat)
    requires Shaped(p, bound)
    ensures bound !in p.scheduled && bound !in FramesOf(p.handoff.entries)
  {}

  /** An admitted frame, from its store to the page's answer. */
  lemma AdmissionAnswers(p: Playout, unit: DecodeUnit, beat: Beat, arrival: nat)
    requires Logged(p.decodeOrder, p.annexB) && |p.annexB| <= CAPACITY
    requires AllBelow(Elems(p.decodeOrder), unit.frame) && Shaped(p, unit.frame)
    requires p.recovery.episode.None? || unit.isRandomAccess
    ensures var (q, told) := Schedule(p, unit, beat, arrival);
      var stored := StoreForDecode(p, unit);
      var taken := unit.isRandomAccess || (!beat.shouldFlush && Takes(p.handoff, arrival));
      && q.annexB == stored.annexB && q.undecodable == stored.undecodable && q.evicted == stored.evicted
      && (unit.frame in q.scheduled <==> taken)
      && (taken ==> q.scheduled[unit.frame]
                    == Scheduled(unit.frame, beat.presentation, unit.isRandomAccess, beat.lateness == 0))
      && told.shouldPresent == (taken && beat.lateness == 0)
  {
    var stored := StoreForDecode(p, unit);
    StoreLeavesPresentation(p, unit);
    SameIsShaped(p, stored, unit.frame);
    FlushKeeps(stored, unit.frame, unit.frame);
    FlushApart(stored, unit.frame);
    FlushDamages(stored, unit.frame);
    var flushed := if beat.shouldFlush then Flush(stored, unit.frame) else stored;
    var ready := CloseIfRandomAccess(flushed, unit.isRandomAccess);
    SameIsShaped(flushed, ready, unit.frame);
    OfferTells(ready, Scheduled(unit.frame, beat.presentation, unit.isRandomAccess, beat.lateness == 0), arrival);
  }

  lemma AdmissionDamages(p: Playout, unit: DecodeUnit, beat: Beat, arrival: nat)
    requires Logged(p.decodeOrder, p.annexB) && |p.annexB| <= CAPACITY
    requires AllBelow(Elems(p.decodeOrder), unit.frame) && Shaped(p, unit.frame)
    requires p.recovery.episode.None? || unit.isRandomAccess
    ensures DamageOf(Schedule(p, unit, beat, arrival).0) ==
      if unit.isRandomAccess then None
      else if !Waiting(p.handoff) && (beat.shouldFlush || Chokes(p.handoff, arrival)) then Some(unit.frame)
      else if |p.annexB| >= CAPACITY then Some(OldestQueued(p.decodeOrder, p.annexB))
      else None
  {
    var stored := StoreAnswers(p, unit);
    StoreLeavesPresentation(p, unit);
    SameIsShaped(p, stored, unit.frame);
    FlushKeeps(stored, unit.frame, unit.frame);
    FlushDamages(stored, unit.frame);
    var flushed := if beat.shouldFlush then Flush(stored, unit.frame) else stored;
    var ready := CloseIfRandomAccess(flushed, unit.isRandomAccess);
    OfferDamages(ready, Scheduled(unit.frame, beat.presentation, unit.isRandomAccess, beat.lateness == 0), arrival);
  }

  // ----- Steps --------------------------------------------------------------

  /** What an assembled frame finds in every reachable state. */
  lemma Finds(s: System, unit: DecodeUnit, beat: Beat, arrival: nat)
    requires ClosureInv(s) && PresentInv(s) && Enabled(s, Assembled(unit, beat, arrival))
    ensures Logged(s.p.decodeOrder, s.p.annexB) && |s.p.annexB| <= CAPACITY
    ensures AllBelow(Elems(s.p.decodeOrder), unit.frame) && Shaped(s.p, unit.frame)
    ensures unit.frame !in s.promised
  {
    AssembleQueue(s, unit);
    WidenBound(s.p, Bound(s), unit.frame);
  }

  /** A keyframe's answer: stored with its own bytes, the recovery over, kept for its
      beat, and promised exactly when it is not late. */
  ghost predicate KeyTaken(s: System, t: System, unit: DecodeUnit, beat: Beat) {
    && t.p.recovery.episode.None?
    && unit.frame in t.p.annexB && t.p.annexB[unit.frame] == Stored(unit.annexB, true)
    && (|s.p.annexB| < CAPACITY ==>
          t.p.annexB == s.p.annexB[unit.frame := Stored(unit.annexB, true)]
          && t.p.undecodable == s.p.undecodable && t.p.evicted == s.p.evicted)
    && unit.frame in t.p.scheduled
    && t.p.scheduled[unit.frame] == Scheduled(unit.frame, beat.presentation, true, beat.lateness == 0)
    && t.promised == s.promised + (if beat.lateness == 0 then {unit.frame} else {})
  }

  lemma KeyframeIsAnswered(s: System, unit: DecodeUnit, beat: Beat, arrival: nat) returns (t: System)
    requires ClosureInv(s) && PresentInv(s) && Enabled(s, Assembled(unit, beat, arrival)) && unit.isRandomAccess
    ensures t == Step(s, Assembled(unit, beat, arrival)) && KeyTaken(s, t, unit, beat)
  {
    Finds(s, unit, beat, arrival);
    t := Step(s, Assembled(unit, beat, arrival));
    var q, told := KeySchedules(s.p, unit, beat, arrival);
    Assembles(s, t, unit, beat, arrival, q, told);
  }

  lemma KeySchedules(p: Playout, unit: DecodeUnit, beat: Beat, arrival: nat) returns (q: Playout, told: Scheduled)
    requires Logged(p.decodeOrder, p.annexB) && |p.annexB| <= CAPACITY
    requires AllBelow(Elems(p.decodeOrder), unit.frame) && Shaped(p, unit.frame) && unit.isRandomAccess
    ensures (q, told) == Schedule(p, unit, beat, arrival)
    ensures q.recovery.episode.None?
    ensures unit.frame in q.annexB && q.annexB[unit.frame] == Stored(unit.annexB, true)
    ensures |p.annexB| < CAPACITY ==>
      q.annexB == p.annexB[unit.frame := Stored(unit.annexB, true)]
      && q.undecodable == p.undecodable && q.evicted == p.evicted
    ensures unit.frame in q.scheduled
    ensures q.scheduled[unit.frame] == Scheduled(unit.frame, beat.presentation, true, beat.lateness == 0)
    ensures told.shouldPresent == (beat.lateness == 0)
  {
    q, told := Schedule(p, unit, beat, arrival).0, Schedule(p, unit, beat, arrival).1;
    var stored := StoreAnswers(p, unit);
    AdmissionAnswers(p, unit, beat, arrival);
    AdmissionDamages(p, unit, beat, arrival);
  }

  /** An admitted inter frame's answer: stored, exactly unless the backlog is full of
      frames that all lean on the oldest; promised exactly when it is not late and the
      handoff takes it: not flushed, not waiting, not overwhelmed. */
  ghost predicate InterTaken(s: System, t: System, unit: DecodeUnit, beat: Beat, arrival: nat) {
    && (unit.frame in t.p.annexB <==> |s.p.annexB| < CAPACITY || KeyBehind(s.p.annexB))
    && (unit.frame in t.p.annexB ==> t.p.annexB[unit.frame] == Stored(unit.annexB, false))
    && (|s.p.annexB| < CAPACITY ==>
          t.p.annexB == s.p.annexB[unit.frame := Stored(unit.annexB, false)]
          && t.p.undecodable == s.p.undecodable && t.p.evicted == s.p.evicted)
    && var taken := !beat.shouldFlush && Takes(s.p.handoff, arrival);
    && (unit.frame in t.p.scheduled <==> taken)
    && (taken ==>
          t.p.scheduled[unit.frame] == Scheduled(unit.frame, beat.presentation, false, beat.lateness == 0))
    && t.promised == s.promised + (if taken && beat.lateness == 0 then {unit.frame} else {})
  }

  lemma InterIsAnswered(s: System, unit: DecodeUnit, beat: Beat, arrival: nat) returns (t: System)
    requires ClosureInv(s) && PresentInv(s) && Enabled(s, Assembled(unit, beat, arrival))
    requires !unit.isRandomAccess && s.p.recovery.episode.None?
    ensures t == Step(s, Assembled(unit, beat, arrival)) && InterTaken(s, t, unit, beat, arrival)
  {
    Finds(s, unit, beat, arrival);
    t := Step(s, Assembled(unit, beat, arrival));
    var q, told := InterSchedules(s.p, unit, beat, arrival);
    Assembles(s, t, unit, beat, arrival, q, told);
  }

  lemma Assembles(s: System, t: System, unit: DecodeUnit, beat: Beat, arrival: nat, q: Playout, told: Scheduled)
    requires Enabled(s, Assembled(unit, beat, arrival)) && t == Step(s, Assembled(unit, beat, arrival))
    requires (q, told) == Schedule(s.p, unit, beat, arrival)
    ensures t.p == q && t.promised == s.promised + (if told.shouldPresent then {unit.frame} else {})
  {}

  lemma InterSchedules(p: Playout, unit: DecodeUnit, beat: Beat, arrival: nat) returns (q: Playout, told: Scheduled)
    requires Logged(p.decodeOrder, p.annexB) && |p.annexB| <= CAPACITY
    requires AllBelow(Elems(p.decodeOrder), unit.frame) && Shaped(p, unit.frame)
    requires p.recovery.episode.None? && !unit.isRandomAccess
    ensures (q, told) == Schedule(p, unit, beat, arrival)
    ensures unit.frame in q.annexB <==> |p.annexB| < CAPACITY || KeyBehind(p.annexB)
    ensures unit.frame in q.annexB ==> q.annexB[unit.frame] == Stored(unit.annexB, false)
    ensures |p.annexB| < CAPACITY ==>
      q.annexB == p.annexB[unit.frame := Stored(unit.annexB, false)]
      && q.undecodable == p.undecodable && q.evicted == p.evicted
    ensures var taken := !beat.shouldFlush && Takes(p.handoff, arrival);
      && (unit.frame in q.scheduled <==> taken)
      && (taken ==>
            q.scheduled[unit.frame] == Scheduled(unit.frame, beat.presentation, false, beat.lateness == 0))
      && told.shouldPresent == (taken && beat.lateness == 0)
  {
    q, told := Schedule(p, unit, beat, arrival).0, Schedule(p, unit, beat, arrival).1;
    var stored := StoreAnswers(p, unit);
    AdmissionAnswers(p, unit, beat, arrival);
  }

  lemma InterIsRefused(s: System, unit: DecodeUnit, beat: Beat, arrival: nat)
    requires ClosureInv(s) && Enabled(s, Assembled(unit, beat, arrival))
    requires !unit.isRandomAccess && s.p.recovery.episode.Some?
    ensures var t := Step(s, Assembled(unit, beat, arrival));
      t.p == s.p.(undecodable := s.p.undecodable + 1) && t.promised == s.promised
      && unit.frame !in t.p.annexB
  {
    AssembleQueue(s, unit);
  }

  /** One event's damage. */
  lemma StepDamages(s: System, e: Event)
    requires ClosureInv(s) && PresentInv(s) && Enabled(s, e)
    ensures DamageOf(Step(s, e).p) ==
      if e.Assembled? && e.unit.isRandomAccess then None
      else if e.Assembled? && DamageOf(s.p).Some? then DamageOf(s.p)
      else Later(NewDamage(s, e), DamageOf(s.p))
  {
    match e
    case Assembled(unit, beat, arrival) =>
      Finds(s, unit, beat, arrival);
      if unit.isRandomAccess || s.p.recovery.episode.None? { AdmissionDamages(s.p, unit, beat, arrival); }
    case Skipped(through) =>
    case Demanded(frame) =>
    case BeatAt(now) => ExpireDamages(s.p, now, Bound(s));
    case PageTakes =>
    case PageDropsBefore(index) => DropEachShape(s.(queue := s.queue[index..]), s.queue[..index]);
    case PagePops(now) => PopDueDamages(s.p, now);
    case PageDrains =>
  }

  lemma {:induction false} PopDamages(p: Playout, now: nat)
    ensures PopQueued(p, now).0.recovery == p.recovery
    decreases |p.handoff.entries|
  {
    if p.handoff.entries != [] {
      var frame := p.handoff.entries[0].frame;
      var q := p.(handoff := p.handoff.(entries := p.handoff.entries[1..]));
      if frame !in q.scheduled {
        PopDamages(q, now);
      } else if !q.scheduled[frame].shouldPresent {
        PopDamages(NoteHandedOff(q.(scheduled := q.scheduled - {frame}), q.scheduled[frame].isRandomAccess), now);
      }
    }
  }

  lemma PopDueDamages(p: Playout, now: nat)
    ensures PopDue(p, now).0.recovery == p.recovery
  {
    PopDamages(p, now);
  }
}
