/** Gap accounting for one channel: u16 sequence numbers, a sliding window of
    4096 seen-slots behind the highest, and counters that must converge to the
    true loss count under reordering and wrap. */
module SeqGapTracker {
  import opened Wrappers
  import opened SerialArithmetic

  const WINDOW: int := 4096

  datatype Observation =
    | First
    | InOrder
    | Gap(skipped: nat)
    | LateFill
    | BaseExtended
    | Duplicate
    | BeyondWindow

  /** `seen` holds the slots, each a sequence number modulo the window. */
  datatype Tracker = Tracker(
    received: nat, duplicates: nat, gapsDetected: nat, lateFilled: nat, beyondWindow: nat, wrapEvents: nat,
    highest: Option<nat>, seen: set<int>, base: Option<nat>, advanceFromStart: nat)

  const Fresh := Tracker(0, 0, 0, 0, 0, 0, None, {}, None, 0)

  function Slot(number: int): int {
    number % WINDOW
  }

  /** The slots of the `n` numbers after `high` are cleared, one by one. */
  function Cleared(seen: set<int>, high: int, n: nat): set<int> {
    if n == 0 then seen
    else Cleared(seen, high, n - 1) - {Slot((high + n) % WRAP16)}
  }

  function AdvanceWindow(seen: set<int>, high: int, distance: nat): set<int> {
    if distance >= WINDOW then {} else Cleared(seen, high, distance)
  }

  function Ahead(t: Tracker, number: nat, distance: int): (Tracker, Observation)
    requires t.highest.Some? && distance > 0
  {
    var high := t.highest.value;
    var skipped := distance - 1;
    var advanced := t.advanceFromStart + distance;
    (t.(wrapEvents := t.wrapEvents + Count(number < high), gapsDetected := t.gapsDetected + skipped,
        seen := AdvanceWindow(t.seen, high, distance) + {Slot(number)}, highest := Some(number),
        advanceFromStart := advanced, base := if advanced >= WINDOW then None else t.base),
     if skipped == 0 then InOrder else Gap(skipped))
  }

  function Behind(t: Tracker, number: nat): (Tracker, Observation) {
    var u := t.(seen := t.seen + {Slot(number)});
    if t.base.Some? && Distance16(t.base.value, number) < 0 then
      (u.(gapsDetected := t.gapsDetected + -Distance16(t.base.value, number) - 1, base := Some(number)), BaseExtended)
    else (u.(lateFilled := t.lateFilled + 1), LateFill)
  }

  function Record(t0: Tracker, number: nat): (Tracker, Observation) {
    var t := t0.(received := t0.received + 1);
    if t.highest.None? then
      (t.(highest := Some(number), base := Some(number), seen := t.seen + {Slot(number)}), First)
    else
      var distance := Distance16(t.highest.value, number);
      if distance == 0 then (t.(duplicates := t.duplicates + 1), Duplicate)
      else if distance > 0 then Ahead(t, number, distance)
      else if -distance >= WINDOW then (t.(beyondWindow := t.beyondWindow + 1), BeyondWindow)
      else if Slot(number) in t.seen then (t.(duplicates := t.duplicates + 1), Duplicate)
      else Behind(t, number)
  }

  /** Datagrams believed lost, clamped at zero. */
  function Missing(t: Tracker): nat {
    if t.gapsDetected >= t.lateFilled then t.gapsDetected - t.lateFilled else 0
  }

  // ----- The simple thing it must agree with --------------------------------

  /** The stream with its numbers unwrapped: which positions were recorded, the
      lowest and highest of them, and the arrivals that recorded nothing. */
  datatype Log = Log(first: int, low: int, high: int, seen: set<int>, repeats: nat, stale: nat)

  function Begin(number: nat): Log {
    Log(number, number, number, {number}, 0, 0)
  }

  /** The position nearest the highest that carries this number. */
  function Position(l: Log, number: nat): int {
    l.high + Distance16(l.high % WRAP16, number)
  }

  function Note(l: Log, p: int): Log {
    if l.high < p then l.(high := p, seen := l.seen + {p})
    else if p <= l.high - WINDOW then l.(stale := l.stale + 1)
    else if p in l.seen then l.(repeats := l.repeats + 1)
    else l.(low := if p < l.low then p else l.low, seen := l.seen + {p})
  }

  function Verdict(l: Log, p: int): Observation {
    if l.high < p then (if p == l.high + 1 then InOrder else Gap(p - l.high - 1))
    else if p <= l.high - WINDOW then BeyondWindow
    else if p in l.seen then Duplicate
    else if p < l.low then BaseExtended
    else LateFill
  }

  // ----- Agreement ----------------------------------------------------------

  predicate Bounded(l: Log) {
    && 0 <= l.first < WRAP16
    && l.low <= l.first <= l.high && l.first - l.low < WINDOW
    && l.high in l.seen && (forall p :: p in l.seen ==> l.low <= p <= l.high)
  }

  predicate SlotTells(slots: set<int>, l: Log, p: int) {
    p in l.seen <==> Slot(p) in slots
  }

  /** Each window bit says exactly whether its position was recorded. */
  predicate BitsAgree(slots: set<int>, l: Log) {
    forall p {:trigger SlotTells(slots, l, p)} :: l.high - WINDOW < p <= l.high ==> SlotTells(slots, l, p)
  }

  predicate CountsAgree(t: Tracker, l: Log) {
    && t.duplicates == l.repeats && t.beyondWindow == l.stale
    && t.received == |l.seen| + l.repeats + l.stale
    && t.gapsDetected + |l.seen| == t.lateFilled + (l.high - l.low + 1)
    && t.wrapEvents == l.high / WRAP16
  }

  predicate EdgesAgree(t: Tracker, l: Log) {
    && t.highest == Some(l.high % WRAP16)
    && t.advanceFromStart == l.high - l.first
    && t.base == (if l.high - l.first < WINDOW then Some(l.low % WRAP16) else None)
  }

  predicate Agrees(t: Tracker, l: Log) {
    Bounded(l) && BitsAgree(t.seen, l) && CountsAgree(t, l) && EdgesAgree(t, l)
  }

  lemma BeginAgrees(number: nat)
    requires number < WRAP16
    ensures Record(Fresh, number).1 == First && Agrees(Record(Fresh, number).0, Begin(number))
  {
    var l := Begin(number);
    forall p | l.high - WINDOW < p <= l.high
      ensures SlotTells({Slot(number)}, l, p)
    {
      SlotsDiffer(p, number);
    }
  }

  /** Within one window, slots name positions. */
  lemma SlotsDiffer(p: int, q: int)
    requires -WINDOW < p - q < WINDOW
    ensures Slot(p) == Slot(q) <==> p == q
  {}

  /** The slot of a number is the slot of any position that carries it. */
  lemma SlotOfPosition(p: int)
    ensures Slot(p % WRAP16) == Slot(p)
  {
    assert p == p / WRAP16 * 16 * WINDOW + p % WRAP16;
  }

  lemma {:induction false} ClearedTells(slots: set<int>, high: int, n: nat, p: int)
    requires n < WINDOW && high + n - WINDOW < p <= high + n
    ensures Slot(p) in Cleared(slots, high % WRAP16, n) <==> p <= high && Slot(p) in slots
  {
    if n > 0 {
      SlotOfPosition(high + n);
      assert (high % WRAP16 + n) % WRAP16 == (high + n) % WRAP16;
      SlotsDiffer(p, high + n);
      if p < high + n { ClearedTells(slots, high, n - 1, p); }
    }
  }

  lemma AdvanceTells(slots: set<int>, l: Log, distance: nat, p: int)
    requires BitsAgree(slots, l) && Bounded(l)
    requires l.high + distance - WINDOW < p <= l.high + distance
    ensures Slot(p) in AdvanceWindow(slots, l.high % WRAP16, distance) <==> p in l.seen
  {
    if distance < WINDOW {
      ClearedTells(slots, l.high, distance, p);
      if p <= l.high { assert SlotTells(slots, l, p); }
    }
  }

  lemma BitsAdvance(slots: set<int>, l: Log, q: int)
    requires BitsAgree(slots, l) && Bounded(l) && l.high < q
    ensures BitsAgree(AdvanceWindow(slots, l.high % WRAP16, q - l.high) + {Slot(q)}, Note(l, q))
  {
    var after := AdvanceWindow(slots, l.high % WRAP16, q - l.high) + {Slot(q)};
    forall p | q - WINDOW < p <= q
      ensures SlotTells(after, Note(l, q), p)
    {
      AdvanceTells(slots, l, q - l.high, p);
      SlotsDiffer(p, q);
    }
  }

  lemma BitsFill(slots: set<int>, l: Log, q: int)
    requires BitsAgree(slots, l) && l.high - WINDOW < q <= l.high && q !in l.seen
    ensures BitsAgree(slots + {Slot(q)}, Note(l, q))
  {
    forall p | l.high - WINDOW < p <= l.high
      ensures SlotTells(slots + {Slot(q)}, Note(l, q), p)
    {
      assert SlotTells(slots, l, p);
      SlotsDiffer(p, q);
    }
  }

  lemma BitsStay(slots: set<int>, l: Log, m: Log)
    requires BitsAgree(slots, l) && m.seen == l.seen && m.high == l.high
    ensures BitsAgree(slots, m)
  {
    forall p | m.high - WINDOW < p <= m.high
      ensures SlotTells(slots, m, p)
    {
      assert SlotTells(slots, l, p);
    }
  }

  lemma PositionCarries(l: Log, number: nat)
    requires number < WRAP16
    ensures Position(l, number) % WRAP16 == number
    ensures -HALF16 <= Position(l, number) - l.high < HALF16
  {}

  lemma AheadAgrees(t: Tracker, l: Log, number: nat, p: int)
    requires Agrees(t, l) && number < WRAP16 && p == Position(l, number) && l.high < p
    ensures Record(t, number).1 == Verdict(l, p) && Agrees(Record(t, number).0, Note(l, p))
  {
    PositionCarries(l, number);
    SlotOfPosition(p);
    BitsAdvance(t.seen, l, p);
    WrapCounted(l.high, p);
    assert |l.seen + {p}| == |l.seen| + 1;
  }

  /** The raw number falls exactly when the position crosses a wrap. */
  lemma WrapCounted(high: int, p: int)
    requires 0 < p - high < HALF16
    ensures p / WRAP16 == high / WRAP16 + Count(p % WRAP16 < high % WRAP16)
  {}

  lemma FillAgrees(t: Tracker, l: Log, number: nat, p: int)
    requires Agrees(t, l) && number < WRAP16 && p == Position(l, number)
    requires l.high - WINDOW < p < l.high && p !in l.seen
    ensures Record(t, number).1 == Verdict(l, p) && Agrees(Record(t, number).0, Note(l, p))
  {
    PositionCarries(l, number);
    SlotOfPosition(p);
    assert SlotTells(t.seen, l, p);
    BitsFill(t.seen, l, p);
    if l.high - l.first < WINDOW { Distance16IsExact(l.low, p); }
    assert |l.seen + {p}| == |l.seen| + 1;
  }

  /** One arrival: the tracker reports what the log says of its position, and
      keeps agreeing with the log. Every raw number is covered. */
  lemma RecordAgrees(t: Tracker, l: Log, number: nat)
    requires Agrees(t, l) && number < WRAP16
    ensures var p := Position(l, number);
      Record(t, number).1 == Verdict(l, p) && Agrees(Record(t, number).0, Note(l, p))
  {
    var p := Position(l, number);
    PositionCarries(l, number);
    SlotOfPosition(p);
    if l.high < p {
      AheadAgrees(t, l, number, p);
    } else {
      if l.high - WINDOW < p {
        assert SlotTells(t.seen, l, p);
        if p !in l.seen { FillAgrees(t, l, number, p); }
      }
      if l.high - WINDOW >= p || p in l.seen { BitsStay(t.seen, l, Note(l, p)); }
    }
  }

  // ----- Whole streams ------------------------------------------------------

  predicate Raw(numbers: seq<nat>) {
    forall i :: 0 <= i < |numbers| ==> numbers[i] < WRAP16
  }

  function Records(t: Tracker, numbers: seq<nat>): Tracker
    decreases |numbers|
  {
    if numbers == [] then t else Records(Record(t, numbers[0]).0, numbers[1..])
  }

  function Notes(l: Log, numbers: seq<nat>): Log
    decreases |numbers|
  {
    if numbers == [] then l else Notes(Note(l, Position(l, numbers[0])), numbers[1..])
  }

  lemma {:induction false} RecordsAgree(t: Tracker, l: Log, numbers: seq<nat>)
    requires Agrees(t, l) && Raw(numbers)
    ensures Agrees(Records(t, numbers), Notes(l, numbers))
    decreases |numbers|
  {
    if numbers != [] {
      RecordAgrees(t, l, numbers[0]);
      RecordsAgree(Record(t, numbers[0]).0, Note(l, Position(l, numbers[0])), numbers[1..]);
    }
  }

  function Range(low: int, high: int): (r: set<int>)
    ensures forall p :: p in r <==> low <= p <= high
    ensures low - 1 <= high ==> |r| == high - low + 1
    decreases high - low
  {
    if low <= high then Range(low, high - 1) + {high} else {}
  }

  /** Gap accounting is exact, for every stream of raw numbers: the datagrams
      believed missing are as many as the positions between the lowest and the
      highest that were never recorded (the clamp at zero never acts), every
      arrival is counted once, and wraps are the wraps of the highest. */
  lemma GapAccountingIsExact(number: nat, numbers: seq<nat>)
    requires number < WRAP16 && Raw(numbers)
    ensures var t := Records(Fresh, [number] + numbers);
      var l := Notes(Begin(number), numbers);
      && t.gapsDetected >= t.lateFilled
      && Missing(t) == |Range(l.low, l.high) - l.seen|
      && t.received == 1 + |numbers| == |l.seen| + t.duplicates + t.beyondWindow
      && t.duplicates == l.repeats && t.beyondWindow == l.stale
      && t.highest == Some(l.high % WRAP16) && t.wrapEvents == l.high / WRAP16
  {
    BeginAgrees(number);
    var t := Record(Fresh, number).0;
    RecordsAgree(t, Begin(number), numbers);
    assert ([number] + numbers)[1..] == numbers;
    var l := Notes(Begin(number), numbers);
    assert l.seen <= Range(l.low, l.high);
    assert |Range(l.low, l.high) - l.seen| == |Range(l.low, l.high)| - |l.seen|;
    ReceivedCounts(t, numbers);
  }

  lemma {:induction false} ReceivedCounts(t: Tracker, numbers: seq<nat>)
    requires t.highest.Some?
    ensures Records(t, numbers).received == t.received + |numbers|
    decreases |numbers|
  {
    if numbers != [] { ReceivedCounts(Record(t, numbers[0]).0, numbers[1..]); }
  }

  // ----- True positions -----------------------------------------------------

  function NoteAll(l: Log, positions: seq<int>): Log
    decreases |positions|
  {
    if positions == [] then l else NoteAll(Note(l, positions[0]), positions[1..])
  }

  /** The network never misplaces a datagram by half the number space. */
  predicate NearTheEdge(l: Log, positions: seq<int>)
    decreases |positions|
  {
    positions == [] ||
    (-HALF16 <= positions[0] - l.high < HALF16 && NearTheEdge(Note(l, positions[0]), positions[1..]))
  }

  function Numbers(positions: seq<int>): seq<nat> {
    seq(|positions|, i requires 0 <= i < |positions| => positions[i] % WRAP16)
  }

  /** When it does not, the raw numbers tell the whole story: the log rebuilt
      from them is the log of the positions themselves. */
  lemma {:induction false} NumbersTellPositions(l: Log, positions: seq<int>)
    requires NearTheEdge(l, positions)
    ensures Raw(Numbers(positions)) && Notes(l, Numbers(positions)) == NoteAll(l, positions)
    decreases |positions|
  {
    if positions != [] {
      Distance16IsExact(l.high, positions[0]);
      assert Position(l, positions[0] % WRAP16) == positions[0];
      assert Numbers(positions)[1..] == Numbers(positions[1..]);
      NumbersTellPositions(Note(l, positions[0]), positions[1..]);
    }
  }

  /** Nothing arrives a whole window late. */
  predicate InsideWindow(l: Log, positions: seq<int>)
    decreases |positions|
  {
    positions == [] ||
    (l.high - WINDOW < positions[0] < l.high + HALF16 && InsideWindow(Note(l, positions[0]), positions[1..]))
  }

  lemma {:induction false} InsideWindowIsNear(l: Log, positions: seq<int>)
    requires InsideWindow(l, positions)
    ensures NearTheEdge(l, positions)
    ensures NoteAll(l, positions).stale == l.stale
    ensures NoteAll(l, positions).seen == l.seen + set p | p in positions
    decreases |positions|
  {
    if positions != [] {
      InsideWindowIsNear(Note(l, positions[0]), positions[1..]);
      assert positions == [positions[0]] + positions[1..];
    }
  }

  /** With reordering inside the window, the datagrams believed missing are the
      true loss: the positions between the extremes that never arrived. */
  lemma MissingIsTrueLoss(first: nat, positions: seq<int>)
    requires first < WRAP16 && InsideWindow(Begin(first), positions)
    ensures var t := Records(Fresh, [first] + Numbers(positions));
      var l := NoteAll(Begin(first), positions);
      var arrived := set p | p in [first] + positions;
      Missing(t) == |Range(l.low, l.high) - arrived| && l.low in arrived && l.high in arrived
      && forall p :: p in arrived ==> l.low <= p <= l.high
  {
    InsideWindowIsNear(Begin(first), positions);
    NumbersTellPositions(Begin(first), positions);
    GapAccountingIsExact(first, Numbers(positions));
    BeginAgrees(first);
    RecordsAgree(Record(Fresh, first).0, Begin(first), Numbers(positions));
    var l := NoteAll(Begin(first), positions);
    assert l.seen == set p | p in [first] + positions;
    LowStays(Begin(first), positions);
  }

  lemma {:induction false} LowStays(l: Log, positions: seq<int>)
    requires l.low in l.seen
    ensures NoteAll(l, positions).low in NoteAll(l, positions).seen
    decreases |positions|
  {
    if positions != [] { LowStays(Note(l, positions[0]), positions[1..]); }
  }
}
