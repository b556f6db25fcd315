/** The steps behind decode closure. The backlog is chained: every inter frame
    in it has its predecessor in the backlog or already in the decoder's hands.
    Eviction, admission, refusal, hand-over and the page's drops each keep the
    chain, the queue's order and the count of frames. */
module BrowserDecodeSteps {
  import opened Wrappers
  import opened RendererHandoff
  import opened BrowserVideoPlayout
  import opened BrowserVideoRuns

  type Backlog = map<nat, Stored>

  // ----- Increasing lists ---------------------------------------------------

  function Elems(s: seq<nat>): set<nat> {
    if s == [] then {} else {s[0]} + Elems(s[1..])
  }

  ghost predicate AllBelow(s: set<nat>, x: nat) {
    forall f :: f in s ==> f < x
  }

  ghost predicate AllAbove(x: nat, s: set<nat>) {
    forall f :: f in s ==> x < f
  }

  ghost predicate Increasing(s: seq<nat>) {
    s == [] || (AllAbove(s[0], Elems(s[1..])) && Increasing(s[1..]))
  }

  lemma {:induction false} IncreasingSnoc(s: seq<nat>, x: nat)
    requires Increasing(s) && AllBelow(Elems(s), x)
    ensures Increasing(s + [x])
    ensures Elems(s + [x]) == Elems(s) + {x}
  {
    if s == [] {
      assert s + [x] == [x];
    } else {
      IncreasingSnoc(s[1..], x);
      assert (s + [x])[1..] == s[1..] + [x];
    }
  }

  lemma {:induction false} IncreasingFits(s: seq<nat>, within: set<nat>)
    requires Increasing(s) && Elems(s) <= within
    ensures |s| <= |within|
  {
    if s != [] {
      assert s[0] !in Elems(s[1..]);
      IncreasingFits(s[1..], within - {s[0]});
    }
  }

  lemma {:induction false} ElemsSize(s: seq<nat>)
    ensures |Elems(s)| <= |s|
  {
    if s != [] {
      ElemsSize(s[1..]);
    }
  }

  lemma SubsetSize<T>(a: set<T>, b: set<T>)
    requires a <= b
    ensures |a| <= |b|
  {
    assert a + (b - a) == b;
  }

  // ----- Chains -------------------------------------------------------------

  /** The frame decodes: it is random access, or nothing came before it, or its
      predecessor is in the backlog or already with the decoder (`got`). */
  ghost predicate Chained(frame: nat, isRandomAccess: bool, have: set<nat>, first: Option<nat>) {
    || isRandomAccess
    || first == Some(frame)
    || (frame > 0 && frame - 1 in have)
  }

  ghost predicate AllChained(backlog: Backlog, got: set<nat>, first: Option<nat>) {
    forall f {:trigger Chained(f, backlog[f].isRandomAccess, backlog.Keys + got, first)} ::
      f in backlog ==> Chained(f, backlog[f].isRandomAccess, backlog.Keys + got, first)
  }

  ghost predicate Within(q: Backlog, p: Backlog) {
    forall f :: f in q ==> f in p && q[f] == p[f]
  }

  /** `q` is `p` from the random-access frame `key` on, or nothing at all. */
  ghost predicate CutAt(q: Backlog, p: Backlog, key: Option<nat>) {
    && Within(q, p)
    && (key.Some? ==> key.value in p && p[key.value].isRandomAccess)
    && (forall f :: f in p ==> (f in q <==> key.Some? && f >= key.value))
    && (forall f :: f in p && p[f].isRandomAccess ==> f in q)
  }

  // ----- Evictions keep the backlog chained ---------------------------------

  /** Removing the oldest frame and then cutting leaves a chained backlog. */
  lemma CutKeepsChain(
    p: Backlog, oldest: nat, kept: Backlog, key: Option<nat>, got: set<nat>, first: Option<nat>)
    requires AllChained(p, got, first)
    requires oldest in p && AllAbove(oldest, (p - {oldest}).Keys)
    requires CutAt(kept, p - {oldest}, key)
    ensures AllChained(kept, got, first)
  {
    var rest := p - {oldest};
    forall f | f in kept
      ensures Chained(f, kept[f].isRandomAccess, kept.Keys + got, first)
    {
      assert f in rest && f >= key.value;
      assert Chained(f, p[f].isRandomAccess, p.Keys + got, first);
      if f - 1 in p {
        assert f == key.value || f - 1 in rest;
      }
    }
  }

  /** The backlog and its log, apart from the rest of the player. */
  ghost predicate Logged(order: seq<nat>, backlog: Backlog) {
    Increasing(order) && backlog.Keys <= Elems(order)
  }

  ghost predicate Backed(p: Playout, got: set<nat>, first: Option<nat>) {
    Logged(p.decodeOrder, p.annexB) && AllChained(p.annexB, got, first)
  }

  function DecodeTotal(p: Playout): nat {
    |p.annexB| + p.evicted + p.undecodable
  }

  /** An eviction never adds, keeps the books, and opens a recovery if it
      removed anything. */
  ghost predicate Shed(p: Playout, q: Playout) {
    && Within(q.annexB, p.annexB)
    && (q.annexB == p.annexB || q.recovery.IsOutstanding())
    && (p.recovery.IsOutstanding() ==> q.recovery.IsOutstanding())
    && DecodeTotal(q) == DecodeTotal(p)
  }

  lemma EvictOldestSheds(p: Playout)
    requires p.decodeOrder != []
    ensures Shed(p, EvictOldest(p))
  {
    var oldest, rest := p.decodeOrder[0], p.decodeOrder[1..];
    if oldest in p.annexB {
      var backlog := p.annexB - {oldest};
      assert backlog.Keys == p.annexB.Keys - {oldest};
      DropDependentsShrinks(rest, backlog);
    }
  }

  ghost predicate EndsWith(order: seq<nat>, tail: nat) {
    order != [] && order[|order| - 1] == tail
  }

  lemma {:induction false} TailIn(order: seq<nat>, tail: nat)
    requires EndsWith(order, tail)
    ensures tail in Elems(order)
  {
    if |order| > 1 {
      TailIn(order[1..], tail);
    }
  }

  lemma TailIsNotHead(order: seq<nat>, tail: nat)
    requires Increasing(order) && EndsWith(order, tail) && |order| > 1
    ensures order[0] < tail && EndsWith(order[1..], tail)
  {
    TailIn(order[1..], tail);
  }

  lemma {:induction false} LiveIs(order: seq<nat>, backlog: Backlog)
    requires Increasing(order)
    ensures Increasing(Live(order, backlog))
    ensures Elems(Live(order, backlog)) == Elems(order) * backlog.Keys
  {
    if order != [] {
      LiveIs(order[1..], backlog);
      if order[0] in backlog {
        assert Live(order, backlog)[1..] == Live(order[1..], backlog);
      }
    }
  }

  lemma CompactKeeps(q: Playout, got: set<nat>, first: Option<nat>)
    requires Backed(q, got, first) && |q.annexB| <= CAPACITY
    ensures Backed(Compact(q), got, first) && |Compact(q).decodeOrder| <= 4 * CAPACITY
    ensures Elems(Compact(q).decodeOrder) <= Elems(q.decodeOrder)
  {
    LiveIs(q.decodeOrder, q.annexB);
    IncreasingFits(Live(q.decodeOrder, q.annexB), q.annexB.Keys);
  }

  /** The player right after the unit went into the backlog. */
  function Stocked(p: Playout, unit: DecodeUnit): Playout {
    p.(annexB := p.annexB[unit.frame := Stored(unit.annexB, unit.isRandomAccess)],
       decodeOrder := p.decodeOrder + [unit.frame])
  }

  lemma StockedIsBacked(p: Playout, unit: DecodeUnit, got: set<nat>, first: Option<nat>)
    requires Backed(p, got, first) && AllBelow(Elems(p.decodeOrder), unit.frame)
    requires Chained(unit.frame, unit.isRandomAccess, p.annexB.Keys + got, first)
    ensures Backed(Stocked(p, unit), got, first)
    ensures DecodeTotal(Stocked(p, unit)) == DecodeTotal(p) + 1
    ensures Elems(Stocked(p, unit).decodeOrder) == Elems(p.decodeOrder) + {unit.frame}
  {
    var q := Stocked(p, unit);
    assert unit.frame !in p.annexB;
    assert q.annexB.Keys == p.annexB.Keys + {unit.frame};
    IncreasingSnoc(p.decodeOrder, unit.frame);
    forall f | f in q.annexB
      ensures Chained(f, q.annexB[f].isRandomAccess, q.annexB.Keys + got, first)
    {
      assert f in p.annexB ==> Chained(f, p.annexB[f].isRandomAccess, p.annexB.Keys + got, first);
    }
  }

  /** The decode side after an admitted unit: chained and bounded, and the
      unit is there unless its own eviction round opened a recovery that it
      cannot close. */
  ghost predicate Admitted(p: Playout, q: Playout, unit: DecodeUnit, got: set<nat>, first: Option<nat>) {
    && Backed(q, got, first)
    && Within(q.annexB, Stocked(p, unit).annexB)
    && (unit.frame in q.annexB || (q.recovery.IsOutstanding() && !unit.isRandomAccess))
    && |q.annexB| <= CAPACITY && |q.decodeOrder| <= 4 * CAPACITY
    && DecodeTotal(q) == DecodeTotal(p) + 1
    && Elems(q.decodeOrder) <= Elems(p.decodeOrder) + {unit.frame}
  }

  // ----- Presentation leaves decode alone -----------------------------------

  /** Only the presentation side moved, and a recovery at most opened. */
  ghost predicate Apart(p: Playout, q: Playout) {
    && q.annexB == p.annexB && q.decodeOrder == p.decodeOrder
    && q.evicted == p.evicted && q.undecodable == p.undecodable
    && (p.recovery.IsOutstanding() ==> q.recovery.IsOutstanding())
  }

  lemma {:induction false} DiscardAllApart(p: Playout, discarded: seq<Entry>)
    ensures Apart(p, DiscardAll(p, discarded))
    decreases |discarded|
  {
    if discarded != [] {
      DiscardAllApart(Discard(p, discarded[0].frame), discarded[1..]);
    }
  }

  lemma AbsorbApart(p: Playout, o: Outcome, newest: Option<nat>)
    ensures Apart(p, Absorb(p, o, newest))
  {
    DiscardAllApart(p, o.discarded);
  }

  lemma FlushApart(p: Playout, frame: nat)
    ensures Apart(p, Flush(p, frame))
  {
    var q := AbandonEarly(p);
    var (h, o) := q.handoff.FailEpisode();
    AbsorbApart(q.(handoff := h), o, Some(frame));
  }

  lemma OfferApart(p: Playout, frame: Scheduled, arrival: nat)
    ensures Apart(p, OfferFrame(p, frame, arrival).0)
  {
    var (h, o) := p.handoff.Offer(Entry(frame.frame, frame.isRandomAccess, arrival));
    AbsorbApart(p.(handoff := h,
                   scheduled := if o.accepted then p.scheduled[frame.frame := frame] else p.scheduled),
                o, Some(frame.frame));
  }

  lemma ExpireApart(p: Playout, now: nat)
    ensures Apart(p, Expire(p, now))
  {
    var (h, o) := p.handoff.Expire(now);
    AbsorbApart(p.(handoff := h), o, None);
  }

  lemma {:induction false} PopQueuedApart(p: Playout, now: nat)
    ensures Apart(p, PopQueued(p, now).0)
    decreases |p.handoff.entries|
  {
    if p.handoff.entries != [] {
      var frame := p.handoff.entries[0].frame;
      var q := p.(handoff := p.handoff.(entries := p.handoff.entries[1..]));
      if frame !in q.scheduled {
        PopQueuedApart(q, now);
      } else if !q.scheduled[frame].shouldPresent {
        var r := NoteHandedOff(q.(scheduled := q.scheduled - {frame}), q.scheduled[frame].isRandomAccess);
        PopQueuedApart(r, now);
      }
    }
  }

  // ----- The invariant of every run -----------------------------------------

  function Got(handed: seq<(nat, Bytes)>): set<nat> {
    if handed == [] then {} else Got(handed[..|handed| - 1]) + {handed[|handed| - 1].0}
  }

  /** A frame may be handed out after `got`: once, with its own bytes, and with
      its predecessor gone before it. */
  ghost predicate MayHandOut(
    item: (nat, Bytes), got: set<nat>, units: map<nat, DecodeUnit>, first: Option<nat>)
  {
    && item.0 in units && item.1 == units[item.0].annexB
    && item.0 !in got
    && Chained(item.0, units[item.0].isRandomAccess, got, first)
  }

  ghost predicate DecodesInOrder(handed: seq<(nat, Bytes)>, units: map<nat, DecodeUnit>, first: Option<nat>) {
    handed == [] ||
    var init := handed[..|handed| - 1];
    DecodesInOrder(init, units, first) && MayHandOut(handed[|handed| - 1], Got(init), units, first)
  }

  ghost predicate Faithful(backlog: Backlog, units: map<nat, DecodeUnit>) {
    forall f :: f in backlog ==>
      f in units && backlog[f] == Stored(units[f].annexB, units[f].isRandomAccess)
  }

  /** Outside a recovery, the frame just before the expected one is at hand. */
  ghost predicate Resumable(p: Playout, got: set<nat>, expected: Option<nat>) {
    !p.recovery.IsOutstanding() && expected.Some? ==>
      expected.value > 0 && expected.value - 1 in p.annexB.Keys + got
  }

  ghost predicate QueueSets(s: System) {
    && Increasing(s.queue)
    && s.p.annexB.Keys <= Elems(s.queue) <= s.units.Keys
    && Elems(s.p.decodeOrder) <= s.units.Keys
    && Got(s.handed) <= s.units.Keys
    && Got(s.handed) !! Elems(s.queue)
  }

  ghost predicate QueueInv(s: System) {
    && QueueSets(s)
    && (s.first.None? <==> s.units.Keys == {})
    && (if s.expected.None? then s.units.Keys == {} else AllBelow(s.units.Keys, s.expected.value))
  }

  ghost predicate ClosureInv(s: System) {
    && QueueInv(s)
    && Backed(s.p, Got(s.handed), s.first)
    && Faithful(s.p.annexB, s.units)
    && Resumable(s.p, Got(s.handed), s.expected)
    && DecodesInOrder(s.handed, s.units, s.first)
    && |s.p.annexB| <= CAPACITY && |s.p.decodeOrder| <= 4 * CAPACITY
    && |s.units| == |s.handed| + DecodeTotal(s.p) + s.removed
  }

  /** A step of the presentation side keeps the invariant. */
  lemma ApartKeepsInv(s: System, t: System)
    requires ClosureInv(s) && Apart(s.p, t.p)
    requires t.expected == s.expected && t.first == s.first && t.units == s.units
    requires t.queue == s.queue && t.handed == s.handed && t.removed == s.removed
    ensures ClosureInv(t)
  {
  }

  lemma SkipKeepsInv(s: System, through: nat)
    requires ClosureInv(s) && Enabled(s, Skipped(through))
    ensures ClosureInv(Step(s, Skipped(through)))
  {
  }

  // ----- Assembly -----------------------------------------------------------

  /** `q` is the stored player with only its presentation side moved; a
      recovery is closed at most by a random-access unit. */
  ghost predicate FromStored(stored: Playout, q: Playout, isRandomAccess: bool) {
    && q.annexB == stored.annexB && q.decodeOrder == stored.decodeOrder
    && q.evicted == stored.evicted && q.undecodable == stored.undecodable
    && (stored.recovery.IsOutstanding() && !isRandomAccess ==> q.recovery.IsOutstanding())
  }

  lemma ScheduleFromStored(p: Playout, unit: DecodeUnit, beat: Beat, arrival: nat)
    requires p.recovery.Admits(unit.isRandomAccess)
    ensures FromStored(StoreForDecode(p, unit), Schedule(p, unit, beat, arrival).0, unit.isRandomAccess)
  {
    var stored := StoreForDecode(p, unit);
    var flushed := if beat.shouldFlush then Flush(stored, unit.frame) else stored;
    FlushApart(stored, unit.frame);
    var frame := Scheduled(unit.frame, beat.presentation, unit.isRandomAccess, beat.lateness == 0);
    OfferApart(CloseIfRandomAccess(flushed, unit.isRandomAccess), frame, arrival);
  }

  lemma FromStoredAdmitted(
    p: Playout, stored: Playout, q: Playout, unit: DecodeUnit, got: set<nat>, first: Option<nat>)
    requires Admitted(p, stored, unit, got, first)
    requires FromStored(stored, q, unit.isRandomAccess)
    ensures Admitted(p, q, unit, got, first)
  {
  }

  /** The run's first frame, once this one is assembled. */
  function FirstAfter(s: System, unit: DecodeUnit): Option<nat> {
    if s.first.Some? then s.first else Some(unit.frame)
  }

  lemma BackedAfter(s: System, unit: DecodeUnit)
    requires QueueInv(s) && Backed(s.p, Got(s.handed), s.first)
    ensures Backed(s.p, Got(s.handed), FirstAfter(s, unit))
  {
    if s.first.None? {
      assert s.p.annexB.Keys <= {};
    }
  }

  lemma AdmittedIsChained(s: System, unit: DecodeUnit)
    requires s.expected.Some? ==> unit.frame == s.expected.value
    requires s.expected.None? ==> s.first.None?
    requires Resumable(s.p, Got(s.handed), s.expected)
    requires s.p.recovery.Admits(unit.isRandomAccess)
    ensures Chained(unit.frame, unit.isRandomAccess, s.p.annexB.Keys + Got(s.handed), FirstAfter(s, unit))
  {
  }

  lemma {:induction false} NewUnitKeepsOrder(
    handed: seq<(nat, Bytes)>, units: map<nat, DecodeUnit>, first: Option<nat>, unit: DecodeUnit)
    requires DecodesInOrder(handed, units, first) && unit.frame !in units
    ensures DecodesInOrder(handed, units[unit.frame := unit], first)
  {
    if handed != [] {
      NewUnitKeepsOrder(handed[..|handed| - 1], units, first, unit);
    }
  }

  lemma NothingHandedAtFirst(s: System)
    requires QueueInv(s)
    ensures s.first.None? ==> s.handed == []
  {
    assert s.handed != [] ==> s.handed[|s.handed| - 1].0 in Got(s.handed);
  }

  lemma NewUnitKeepsHandedOrder(s: System, unit: DecodeUnit)
    requires QueueInv(s) && DecodesInOrder(s.handed, s.units, s.first) && unit.frame !in s.units
    ensures DecodesInOrder(s.handed, s.units[unit.frame := unit], FirstAfter(s, unit))
  {
    NewUnitKeepsOrder(s.handed, s.units, s.first, unit);
    NothingHandedAtFirst(s);
  }

  lemma AssembleQueue(s: System, unit: DecodeUnit)
    requires QueueInv(s) && (s.expected.Some? ==> unit.frame == s.expected.value)
    ensures unit.frame !in s.units && AllBelow(Elems(s.queue), unit.frame)
    ensures AllBelow(s.units.Keys, unit.frame)
    ensures Increasing(s.queue + [unit.frame])
    ensures Elems(s.queue + [unit.frame]) == Elems(s.queue) + {unit.frame}
    ensures |s.units[unit.frame := unit]| == |s.units| + 1
    ensures s.units[unit.frame := unit].Keys == s.units.Keys + {unit.frame}
  {
    assert AllBelow(s.units.Keys, unit.frame);
    IncreasingSnoc(s.queue, unit.frame);
    assert s.units[unit.frame := unit].Keys == s.units.Keys + {unit.frame};
  }

  /** Everything an assembled unit moves outside the player. */
  ghost predicate Enqueued(s: System, t: System, unit: DecodeUnit) {
    && t.expected == Some(unit.frame + 1) && t.first == FirstAfter(s, unit)
    && t.units == s.units[unit.frame := unit]
    && t.queue == s.queue + [unit.frame]
    && t.handed == s.handed && t.removed == s.removed
  }

  lemma EnqueuedKeepsSets(s: System, t: System, unit: DecodeUnit)
    requires QueueInv(s) && (s.expected.Some? ==> unit.frame == s.expected.value)
    requires Enqueued(s, t, unit)
    requires t.p.annexB.Keys <= s.p.annexB.Keys + {unit.frame}
    requires Elems(t.p.decodeOrder) <= Elems(s.p.decodeOrder) + {unit.frame}
    ensures QueueSets(t)
  {
    AssembleQueue(s, unit);
  }

  lemma EnqueuedKeepsQueue(s: System, t: System, unit: DecodeUnit)
    requires QueueInv(s) && (s.expected.Some? ==> unit.frame == s.expected.value)
    requires Enqueued(s, t, unit)
    requires t.p.annexB.Keys <= s.p.annexB.Keys + {unit.frame}
    requires Elems(t.p.decodeOrder) <= Elems(s.p.decodeOrder) + {unit.frame}
    ensures QueueInv(t)
  {
    EnqueuedKeepsSets(s, t, unit);
    AssembleQueue(s, unit);
  }

  lemma RefusedStaysBacked(s: System, t: System, unit: DecodeUnit)
    requires ClosureInv(s) && (s.expected.Some? ==> unit.frame == s.expected.value)
    requires Enqueued(s, t, unit) && t.p == s.p.(undecodable := s.p.undecodable + 1)
    requires s.p.recovery.IsOutstanding()
    ensures Backed(t.p, Got(t.handed), t.first) && Faithful(t.p.annexB, t.units)
    ensures DecodesInOrder(t.handed, t.units, t.first)
  {
    AssembleQueue(s, unit);
    BackedAfter(s, unit);
    NewUnitKeepsHandedOrder(s, unit);
  }

  lemma RefusedKeepsInv(s: System, t: System, unit: DecodeUnit)
    requires ClosureInv(s) && (s.expected.Some? ==> unit.frame == s.expected.value)
    requires Enqueued(s, t, unit) && t.p == s.p.(undecodable := s.p.undecodable + 1)
    requires s.p.recovery.IsOutstanding()
    ensures ClosureInv(t)
  {
    EnqueuedKeepsQueue(s, t, unit);
    RefusedStaysBacked(s, t, unit);
  }

  lemma RefuseKeepsInv(s: System, unit: DecodeUnit, beat: Beat, arrival: nat)
    requires ClosureInv(s) && Enabled(s, Assembled(unit, beat, arrival))
    requires !s.p.recovery.Admits(unit.isRandomAccess)
    ensures ClosureInv(Assemble(s, unit, beat, arrival))
  {
    RefusedKeepsInv(s, Assemble(s, unit, beat, arrival), unit);
  }

  lemma AdmittedIsFaithful(
    p: Playout, q: Playout, unit: DecodeUnit, got: set<nat>, first: Option<nat>, units: map<nat, DecodeUnit>)
    requires Admitted(p, q, unit, got, first)
    requires Faithful(p.annexB, units) && unit.frame !in units
    ensures Faithful(q.annexB, units[unit.frame := unit])
    ensures Resumable(q, got, Some(unit.frame + 1))
    ensures q.annexB.Keys <= p.annexB.Keys + {unit.frame}
  {
  }

  // ----- The page -----------------------------------------------------------

  lemma HandOutKeepsOrder(handed: seq<(nat, Bytes)>, units: map<nat, DecodeUnit>, first: Option<nat>, item: (nat, Bytes))
    requires DecodesInOrder(handed, units, first)
    requires MayHandOut(item, Got(handed), units, first)
    ensures DecodesInOrder(handed + [item], units, first)
    ensures Got(handed + [item]) == Got(handed) + {item.0}
  {
    var more := handed + [item];
    assert more[..|more| - 1] == handed;
  }

  /** Moving a frame from the backlog to the decoder breaks no chain. */
  lemma HandOverKeepsChain(p: Backlog, frame: nat, got: set<nat>, first: Option<nat>)
    requires AllChained(p, got, first) && frame in p
    ensures AllChained(p - {frame}, got + {frame}, first)
    ensures (p - {frame}).Keys + (got + {frame}) == p.Keys + got
  {
    var rest := p - {frame};
    assert rest.Keys == p.Keys - {frame};
    assert rest.Keys + (got + {frame}) == p.Keys + got;
    forall f | f in rest
      ensures Chained(f, rest[f].isRandomAccess, rest.Keys + (got + {frame}), first)
    {
      assert Chained(f, p[f].isRandomAccess, p.Keys + got, first);
    }
  }

  lemma FrontMayBeHandedOut(s: System)
    requires ClosureInv(s) && s.queue != [] && s.queue[0] in s.p.annexB
    ensures MayHandOut((s.queue[0], s.p.annexB[s.queue[0]].annexB), Got(s.handed), s.units, s.first)
  {
    var frame := s.queue[0];
    assert Chained(frame, s.p.annexB[frame].isRandomAccess, s.p.annexB.Keys + Got(s.handed), s.first);
    assert frame in Elems(s.queue);
    assert frame > 0 ==> frame - 1 !in Elems(s.queue);
  }

  lemma TakeFrontKeepsQueue(s: System)
    requires QueueInv(s) && s.queue != []
    ensures var rest := s.queue[1..];
            && Increasing(rest) && s.queue[0] in s.units
            && s.p.annexB.Keys - {s.queue[0]} <= Elems(rest) <= s.units.Keys
            && Got(s.handed) + {s.queue[0]} !! Elems(rest)
  {
  }

  lemma TakeKeepsBacked(s: System)
    requires ClosureInv(s) && s.queue != [] && s.queue[0] in s.p.annexB
    ensures var t := Take(s);
            && Backed(t.p, Got(t.handed), t.first)
            && Resumable(t.p, Got(t.handed), t.expected)
            && DecodesInOrder(t.handed, t.units, t.first)
            && Got(t.handed) == Got(s.handed) + {s.queue[0]}
            && t.p.annexB == s.p.annexB - {s.queue[0]}
            && |t.handed| == |s.handed| + 1
  {
    var frame := s.queue[0];
    var t := Take(s);
    assert t.p == s.p.(annexB := s.p.annexB - {frame});
    FrontMayBeHandedOut(s);
    HandOutKeepsOrder(s.handed, s.units, s.first, (frame, s.p.annexB[frame].annexB));
    HandOverKeepsChain(s.p.annexB, frame, Got(s.handed), s.first);
  }

  lemma TakeKeepsQueue(s: System, t: System)
    requires QueueInv(s) && s.queue != [] && t.queue == s.queue[1..]
    requires t.units == s.units && t.first == s.first && t.expected == s.expected
    requires t.p.annexB.Keys == s.p.annexB.Keys - {s.queue[0]} && t.p.decodeOrder == s.p.decodeOrder
    requires Got(t.handed) == Got(s.handed) + {s.queue[0]}
    ensures QueueInv(t)
  {
    TakeFrontKeepsQueue(s);
  }

  lemma TakeKeepsInv(s: System)
    requires ClosureInv(s) && s.queue != [] && s.queue[0] in s.p.annexB
    ensures ClosureInv(Take(s))
  {
    var t := Take(s);
    TakeKeepsBacked(s);
    assert t.p.annexB.Keys == s.p.annexB.Keys - {s.queue[0]};
    TakeKeepsQueue(s, t);
  }

  lemma TakeMissKeepsInv(s: System)
    requires ClosureInv(s) && s.queue != [] && s.queue[0] !in s.p.annexB
    ensures ClosureInv(Take(s))
  {
    var t := Take(s);
    assert t.p.annexB == s.p.annexB && t.queue == s.queue[1..];
    TakeFrontKeepsQueue(s);
    assert Backed(t.p, Got(t.handed), t.first);
  }

  /** Everything but the frames' own entries stays as it was. */
  ghost predicate DropsOnly(s: System, t: System) {
    && t.p.decodeOrder == s.p.decodeOrder && t.p.recovery == s.p.recovery
    && t.p.evicted == s.p.evicted && t.p.undecodable == s.p.undecodable
    && t.expected == s.expected && t.first == s.first && t.units == s.units
    && t.queue == s.queue && t.handed == s.handed
    && |s.p.annexB| + s.removed == |t.p.annexB| + t.removed
  }

  lemma DropOneShape(s: System, frame: nat)
    ensures DropsOnly(s, DropOne(s, frame))
  {
    assert DropOne(s, frame).p.annexB.Keys == s.p.annexB.Keys - {frame};
  }

  lemma {:induction false} DropEachShape(s: System, frames: seq<nat>)
    ensures DropEach(s, frames).p.annexB == s.p.annexB - Elems(frames)
    ensures DropsOnly(s, DropEach(s, frames))
    decreases |frames|
  {
    if frames == [] {
      assert s.p.annexB - {} == s.p.annexB;
    } else {
      DropOneShape(s, frames[0]);
      DropEachShape(DropOne(s, frames[0]), frames[1..]);
      assert s.p.annexB - Elems(frames) == (s.p.annexB - {frames[0]}) - Elems(frames[1..]);
    }
  }

  lemma {:induction false} SplitQueue(queue: seq<nat>, index: nat)
    requires Increasing(queue) && index < |queue|
    ensures Increasing(queue[..index]) && Increasing(queue[index..])
    ensures Elems(queue) == Elems(queue[..index]) + Elems(queue[index..])
    ensures AllBelow(Elems(queue[..index]), queue[index])
    ensures forall f :: f in Elems(queue[index..]) ==> f >= queue[index]
    ensures queue[index] in Elems(queue)
  {
    if index > 0 {
      SplitQueue(queue[1..], index - 1);
      assert queue[..index][1..] == queue[1..][..index - 1];
      assert queue[index..] == queue[1..][index - 1..];
    } else {
      assert queue[index..] == queue;
    }
  }

  /** What is left starts at a random-access frame, so no chain is broken. */
  lemma DropPrefixKeepsChain(p: Backlog, dropped: set<nat>, key: nat, got: set<nat>, first: Option<nat>)
    requires AllChained(p, got, first)
    requires AllBelow(dropped, key) && (key in p ==> p[key].isRandomAccess)
    requires forall f :: f in p && f !in dropped ==> f >= key
    ensures AllChained(p - dropped, got, first)
  {
    var kept := p - dropped;
    forall f | f in kept
      ensures Chained(f, kept[f].isRandomAccess, kept.Keys + got, first)
    {
      assert Chained(f, p[f].isRandomAccess, p.Keys + got, first);
      if f > key && f - 1 in p {
        assert f - 1 in kept;
      }
    }
  }

  lemma DropPrefixKeepsInv(s: System, index: nat)
    requires ClosureInv(s) && Enabled(s, PageDropsBefore(index))
    ensures ClosureInv(Step(s, PageDropsBefore(index)))
  {
    var frames, key := s.queue[..index], s.queue[index];
    var t := Step(s, PageDropsBefore(index));
    SplitQueue(s.queue, index);
    DropEachShape(s.(queue := s.queue[index..]), frames);
    assert t.p.annexB.Keys == s.p.annexB.Keys - Elems(frames);
    DropPrefixKeepsChain(s.p.annexB, Elems(frames), key, Got(s.handed), s.first);
    assert QueueInv(t);
    assert s.expected.Some? && key < s.expected.value;
    assert Resumable(t.p, Got(s.handed), s.expected);
  }

  // ----- Beats, pops and what was handed out --------------------------------

  lemma ExpireKeepsInv(s: System, now: nat)
    requires ClosureInv(s)
    ensures ClosureInv(s.(p := Expire(s.p, now)))
  {
    ExpireApart(s.p, now);
    ApartKeepsInv(s, s.(p := Expire(s.p, now)));
  }

  lemma PopDueApart(p: Playout, now: nat)
    ensures Apart(p, PopDue(p, now).0)
  {
    PopQueuedApart(p, now);
  }

  lemma PopKeepsInv(s: System, now: nat)
    requires ClosureInv(s)
    ensures ClosureInv(Pop(s, now))
  {
    PopDueApart(s.p, now);
    ApartKeepsInv(s, Pop(s, now));
  }

  lemma {:induction false} GotIs(handed: seq<(nat, Bytes)>, frame: nat)
    ensures frame in Got(handed) <==> exists j :: 0 <= j < |handed| && handed[j].0 == frame
  {
    if handed != [] {
      var init := handed[..|handed| - 1];
      GotIs(init, frame);
      assert forall j :: 0 <= j < |init| ==> init[j] == handed[j];
    }
  }

  lemma {:induction false} OrderAt(handed: seq<(nat, Bytes)>, units: map<nat, DecodeUnit>, first: Option<nat>, i: nat)
    requires DecodesInOrder(handed, units, first) && i < |handed|
    ensures MayHandOut(handed[i], Got(handed[..i]), units, first)
  {
    var init := handed[..|handed| - 1];
    if i < |init| {
      OrderAt(init, units, first, i);
      assert init[..i] == handed[..i];
    }
  }
}
