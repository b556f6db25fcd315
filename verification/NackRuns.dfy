/** Every input of the repair policy, and what whole runs keep: bounded books,
    each shard asked once in a book's life, each frame given up on once. */
module NackRuns {
  import opened Wrappers
  import opened IntSets
  import opened SerialArithmetic
  import opened ClientNackPolicy

  // ----- Asking -------------------------------------------------------------

  function NewBook(now: int): Book {
    Book({}, {}, None, false, false, Pending, now)
  }

  predicate Full(p: Policy) {
    |p.books| >= p.cfg.maxTracked && p.books != map[]
  }

  /** A book the ceiling may evict: none was touched longer ago. */
  predicate IsOldest(books: map<int, Book>, victim: int) {
    victim in books && forall k :: k in books ==> books[victim].touched <= books[k].touched
  }

  /** The other books once this frame has one. */
  function WithRoom(p: Policy, frame: int, victim: int): map<int, Book> {
    if frame !in p.books && Full(p) then p.books - {victim} else p.books
  }

  function BookOf(p: Policy, frame: int, now: int): Book {
    if frame in p.books then p.books[frame].(touched := now) else NewBook(now)
  }

  function Unasked(missing: seq<int>, asked: set<int>): seq<int> {
    if missing == [] then []
    else (if missing[0] in asked then [] else [missing[0]]) + Unasked(missing[1..], asked)
  }

  function ShardSet(shards: seq<int>): set<int> {
    set s | s in shards
  }

  function Clamped(rtt: Option<int>, budget: int): int {
    var r := if rtt.Some? && rtt.value > 0 then rtt.value else 0;
    if r < budget then r else budget
  }

  predicate TooStale(cfg: Config, age: int, rtt: Option<int>) {
    age + Clamped(rtt, cfg.staleBudget) >= cfg.staleBudget
  }

  function CountPastParity(p: Policy, b: Book): Policy {
    p.(stats := p.stats.(pastParity := p.stats.pastParity + Count(b.asked == {})))
  }

  function Refuse(p: Policy, frame: int, b: Book): Policy {
    if b.asked == {} then
      p.(books := p.books[frame := b.(refusedStale := true)],
         stats := p.stats.(suppressedStale := p.stats.suppressedStale + 1))
    else p.(books := p.books[frame := b])
  }

  function AskFor(p: Policy, frame: int, b: Book, asks: seq<int>, now: int): Policy {
    p.(books := p.books[frame := b.(asked := b.asked + ShardSet(asks),
                                    firstAsk := if b.firstAsk.None? then Some(now) else b.firstAsk)],
       stats := p.stats.(entries := p.stats.entries + 1, shardsAsked := p.stats.shardsAsked + |asks|))
  }

  function Ask(p: Policy, frame: int, missing: seq<int>, parity: int, age: int, rtt: Option<int>,
               victim: int, now: int): (Policy, Decision) {
    var b := BookOf(p, frame, now);
    var q := p.(books := WithRoom(p, frame, victim));
    var kept := q.(books := q.books[frame := b]);
    if b.Settled() || b.refusedStale || |missing| <= parity then (kept, NoDecision())
    else
      var past := CountPastParity(q, b);
      var asks := Unasked(missing, b.asked);
      if TooStale(p.cfg, age, rtt) then (Refuse(past, frame, b), NoDecision())
      else if asks == [] then (past.(books := past.books[frame := b]), NoDecision())
      else (AskFor(past, frame, b, asks, now), Decision([Entry(frame, ShardSet(asks))], []))
  }

  // ----- Answers ------------------------------------------------------------

  function Touch(p: Policy, frame: int, b: Book, now: int): Policy {
    p.(books := p.books[frame := b.(touched := now)])
  }

  function OnRepair(p: Policy, frame: int, index: int, now: int): Policy {
    var q := p.(stats := p.stats.(repairShards := p.stats.repairShards + 1));
    if frame !in p.books then q
    else
      var b := p.books[frame];
      Touch(q, frame, b.(sawRepair := true,
                         accepted := if index in b.asked then b.accepted + {index} else b.accepted), now)
  }

  function OnDecoded(p: Policy, frame: int, now: int): Policy {
    if frame !in p.books || p.books[frame].Settled() then p
    else
      var b := p.books[frame];
      Touch(p.(stats := p.stats.(completedByRepair :=
                 p.stats.completedByRepair + Count(b.sawRepair && b.asked != {}))),
            frame, b.(fate := Decoded), now)
  }

  function OnSatisfied(p: Policy, frame: int, index: int, now: int): Policy {
    if frame !in p.books || index !in p.books[frame].asked then p
    else
      var b := p.books[frame];
      var q := if index in b.accepted then p.(stats := p.stats.(duplicate := p.stats.duplicate + 1))
               else p.(stats := p.stats.(late := p.stats.late + 1));
      Touch(q, frame, b, now)
  }

  function OnStale(p: Policy, frame: int, now: int): Policy {
    if frame !in p.books || p.books[frame].asked == {} then p
    else
      var b := p.books[frame];
      var q := if b.fate == Decoded then p.(stats := p.stats.(late := p.stats.late + 1))
               else p.(stats := p.stats.(superseded := p.stats.superseded + 1));
      Touch(q, frame, b, now)
  }

  function OnRefusal(p: Policy, frame: int, now: int): (Policy, Decision) {
    var q := p.(stats := p.stats.(refusals := p.stats.refusals + 1));
    if WasAsked(p.books, frame) then
      (q.(books := q.books[frame := GiveUp(q.books[frame], now)],
          stats := q.stats.(refusalsActedOn := q.stats.refusalsActedOn + 1)), Decision([], [frame]))
    else (q.(stats := q.stats.(refusalsIgnored := q.stats.refusalsIgnored + 1)), NoDecision())
  }

  /** A repair is pending within its deadline: the IDR waits. */
  predicate Defers(p: Policy, frame: int, now: int) {
    frame in p.books && !p.books[frame].Settled() && !p.books[frame].refusedStale
    && p.books[frame].firstAsk.Some? && now - p.books[frame].firstAsk.value < p.cfg.repairDeadline
  }

  function OnFecImpossible(p: Policy, frame: int, now: int): Policy {
    if Defers(p, frame, now) then p.(stats := p.stats.(deferred := p.stats.deferred + 1)) else p
  }

  // ----- The beat -----------------------------------------------------------

  predicate Overdue(cfg: Config, b: Book, now: int) {
    !b.Settled() && b.firstAsk.Some? && now - b.firstAsk.value >= cfg.repairDeadline
  }

  function Aged(cfg: Config, b: Book, now: int): Book {
    if Overdue(cfg, b, now) then GiveUp(b, now) else b
  }

  /** Settled books linger two deadlines for late signals, then go. */
  predicate Lingers(cfg: Config, b: Book, now: int) {
    !(b.Settled() && now - b.touched >= cfg.repairDeadline * 2)
  }

  function OverdueFrames(p: Policy, now: int): set<int> {
    set k | k in p.books && Overdue(p.cfg, p.books[k], now)
  }

  ghost function OnTick(p: Policy, now: int): (Policy, Decision) {
    (p.(books := map k | k in p.books && Lingers(p.cfg, Aged(p.cfg, p.books[k], now), now)
                   :: Aged(p.cfg, p.books[k], now),
        stats := p.stats.(escalated := p.stats.escalated + |OverdueFrames(p, now)|)),
     Decision([], Sorted(OverdueFrames(p, now))))
  }

  // ----- Steps --------------------------------------------------------------

  datatype Input =
    | Candidates(frame: int, missing: seq<int>, parity: int, age: int, rtt: Option<int>, victim: int)
    | RepairAccepted(frame: int, index: int)
    | FrameDecoded(frame: int)
    | RangeIsGone(from: int, through: int)
    | SatisfiedDropped(frame: int, index: int)
    | StaleDropped(frame: int)
    | Refusal(frame: int)
    | FecImpossible(frame: int)
    | Beat

  /** Frame numbers are u32s, and the ceiling evicts an oldest book. */
  predicate Proper(p: Policy, input: Input) {
    match input
    case Candidates(frame, _, _, _, _, victim) =>
      IsFrame(frame) && (frame !in p.books && Full(p) ==> IsOldest(p.books, victim))
    case RangeIsGone(from, through) => IsFrame(from) && IsFrame(through)
    case _ => true
  }

  ghost function Step(p: Policy, input: Input, now: int): (Policy, Decision) {
    match input
    case Candidates(frame, missing, parity, age, rtt, victim) => Ask(p, frame, missing, parity, age, rtt, victim, now)
    case RepairAccepted(frame, index) => (OnRepair(p, frame, index, now), NoDecision())
    case FrameDecoded(frame) => (OnDecoded(p, frame, now), NoDecision())
    case RangeIsGone(from, through) => FramesGone(p, from, through, now)
    case SatisfiedDropped(frame, index) => (OnSatisfied(p, frame, index, now), NoDecision())
    case StaleDropped(frame) => (OnStale(p, frame, now), NoDecision())
    case Refusal(frame) => OnRefusal(p, frame, now)
    case FecImpossible(frame) => (OnFecImpossible(p, frame, now), NoDecision())
    case Beat => OnTick(p, now)
  }

  // ----- The books stay bounded ---------------------------------------------

  predicate BookSound(b: Book) {
    && b.accepted <= b.asked && (b.asked != {} <==> b.firstAsk.Some?)
    && (b.refusedStale ==> b.asked == {})
  }

  function Ceiling(cfg: Config): nat {
    if cfg.maxTracked == 0 then 1 else cfg.maxTracked
  }

  ghost predicate Inv(p: Policy) {
    && WellKeyed(p.books) && |p.books| <= Ceiling(p.cfg)
    && forall k :: k in p.books ==> BookSound(p.books[k])
  }

  /** One book is written, others stay. */
  lemma WriteKeeps(books: map<int, Book>, k: int, b: Book)
    ensures |books[k := b]| == |books| + Count(k !in books)
  {
    assert books[k := b].Keys == books.Keys + {k};
    if k in books { assert books.Keys + {k} == books.Keys; }
  }

  lemma DropShrinks(books: map<int, Book>, k: int)
    requires k in books
    ensures |books - {k}| == |books| - 1
  {
    assert (books - {k}).Keys == books.Keys - {k};
  }

  lemma UnaskedIs(missing: seq<int>, asked: set<int>)
    ensures forall s :: s in Unasked(missing, asked) <==> s in missing && s !in asked
  {}

  lemma AsksAreNew(missing: seq<int>, asked: set<int>)
    ensures var asks := Unasked(missing, asked); asked !! ShardSet(asks) && (asks != [] ==> ShardSet(asks) != {})
  {
    var asks := Unasked(missing, asked);
    UnaskedIs(missing, asked);
    forall s | s in asked
      ensures s !in ShardSet(asks)
    {}
    if asks != [] { assert asks[0] in ShardSet(asks); }
  }

  lemma RoomKeeps(p: Policy, frame: int, victim: int, b: Book)
    requires Inv(p) && Proper(p, Candidates(frame, [], 0, 0, None, victim)) && BookSound(b)
    ensures Inv(p.(books := WithRoom(p, frame, victim)[frame := b]))
  {
    var room := WithRoom(p, frame, victim);
    if frame !in p.books && Full(p) { DropShrinks(p.books, victim); }
    WriteKeeps(room, frame, b);
  }

  lemma AskKeeps(p: Policy, frame: int, missing: seq<int>, parity: int, age: int, rtt: Option<int>,
                 victim: int, now: int)
    requires Inv(p) && Proper(p, Candidates(frame, missing, parity, age, rtt, victim))
    ensures Inv(Ask(p, frame, missing, parity, age, rtt, victim, now).0)
  {
    var b := BookOf(p, frame, now);
    if b.Settled() || b.refusedStale || |missing| <= parity {
      RoomKeeps(p, frame, victim, b);
    } else if TooStale(p.cfg, age, rtt) {
      RoomKeeps(p, frame, victim, if b.asked == {} then b.(refusedStale := true) else b);
    } else {
      AskForKeeps(p, frame, victim, b, Unasked(missing, b.asked), missing, now);
    }
  }

  lemma AskForKeeps(p: Policy, frame: int, victim: int, b: Book, asks: seq<int>, missing: seq<int>, now: int)
    requires Inv(p) && Proper(p, Candidates(frame, missing, 0, 0, None, victim))
    requires BookSound(b) && !b.refusedStale && asks == Unasked(missing, b.asked)
    ensures var q := p.(books := WithRoom(p, frame, victim));
      Inv(if asks == [] then q.(books := q.books[frame := b]) else AskFor(q, frame, b, asks, now))
  {
    AsksAreNew(missing, b.asked);
    RoomKeeps(p, frame, victim, if asks == [] then b else
      b.(asked := b.asked + ShardSet(asks), firstAsk := if b.firstAsk.None? then Some(now) else b.firstAsk));
  }

  lemma TouchKeeps(p: Policy, frame: int, b: Book, now: int)
    requires Inv(p) && frame in p.books && BookSound(b)
    ensures Inv(Touch(p, frame, b, now))
  {
    WriteKeeps(p.books, frame, b.(touched := now));
  }

  lemma GoneKeeps(p: Policy, from: int, through: int, now: int)
    requires Inv(p)
    ensures Inv(FramesGone(p, from, through, now).0)
  {
    var n := Offset(from, through) + 1;
    assert GivenUp(p.books, from, n, now).Keys == p.books.Keys;
  }

  lemma TickKeeps(p: Policy, now: int)
    requires Inv(p)
    ensures Inv(OnTick(p, now).0)
  {
    var after := OnTick(p, now).0.books;
    assert after.Keys <= p.books.Keys;
    SubsetIsNoLarger(after.Keys, p.books.Keys);
  }

  lemma SubsetIsNoLarger(a: set<int>, b: set<int>)
    requires a <= b
    ensures |a| <= |b|
  {
    assert b == a + (b - a);
  }

  lemma StepKeeps(p: Policy, input: Input, now: int)
    requires Inv(p) && Proper(p, input)
    ensures Inv(Step(p, input, now).0)
  {
    match input
    case Candidates(frame, missing, parity, age, rtt, victim) =>
      AskKeeps(p, frame, missing, parity, age, rtt, victim, now);
    case RepairAccepted(frame, index) =>
      if frame in p.books {
        var b := p.books[frame];
        TouchKeeps(p, frame, b.(sawRepair := true,
                                accepted := if index in b.asked then b.accepted + {index} else b.accepted), now);
      }
    case FrameDecoded(frame) => if frame in p.books { TouchKeeps(p, frame, p.books[frame].(fate := Decoded), now); }
    case RangeIsGone(from, through) => GoneKeeps(p, from, through, now);
    case SatisfiedDropped(frame, index) => if frame in p.books { TouchKeeps(p, frame, p.books[frame], now); }
    case StaleDropped(frame) => if frame in p.books { TouchKeeps(p, frame, p.books[frame], now); }
    case Refusal(frame) => if frame in p.books { TouchKeeps(p, frame, p.books[frame].(fate := Gone), now); }
    case FecImpossible(frame) =>
    case Beat => TickKeeps(p, now);
  }

  // ----- Runs ---------------------------------------------------------------

  datatype Event = Event(input: Input, now: int)

  ghost function Run(p: Policy, events: seq<Event>): Policy
    decreases |events|
  {
    if events == [] then p else Run(Step(p, events[0].input, events[0].now).0, events[1..])
  }

  ghost predicate AllProper(p: Policy, events: seq<Event>)
    decreases |events|
  {
    events == [] ||
    (Proper(p, events[0].input) && AllProper(Step(p, events[0].input, events[0].now).0, events[1..]))
  }

  /** However many frames the host names, the books stay within the ceiling. */
  lemma {:induction false} BooksStayBounded(p: Policy, events: seq<Event>)
    requires Inv(p) && AllProper(p, events)
    ensures Inv(Run(p, events)) && |Run(p, events).books| <= Ceiling(Run(p, events).cfg)
    decreases |events|
  {
    if events != [] {
      StepKeeps(p, events[0].input, events[0].now);
      BooksStayBounded(Step(p, events[0].input, events[0].now).0, events[1..]);
    }
  }

  /** The book of this frame is never dropped while the run lasts. */
  ghost predicate Kept(p: Policy, events: seq<Event>, frame: int)
    decreases |events|
  {
    events == [] ||
    var q := Step(p, events[0].input, events[0].now).0;
    (frame in p.books ==> frame in q.books) && Kept(q, events[1..], frame)
  }

  // ----- Each shard is asked once -------------------------------------------

  function AskedOf(books: map<int, Book>, frame: int): set<int> {
    if frame in books then books[frame].asked else {}
  }

  /** The shards of one frame a decision asks for. */
  function AskedBy(d: Decision, frame: int): multiset<int> {
    if |d.nacks| == 1 && d.nacks[0].frame == frame then multiset(d.nacks[0].shards) else multiset{}
  }

  lemma DisjointUnion(a: set<int>, b: set<int>)
    requires a !! b
    ensures multiset(a + b) == multiset(a) + multiset(b)
  {}

  lemma AskAsks(p: Policy, frame: int, missing: seq<int>, parity: int, age: int, rtt: Option<int>,
                victim: int, now: int)
    requires Inv(p)
    ensures var r := Ask(p, frame, missing, parity, age, rtt, victim, now);
      && multiset(AskedOf(r.0.books, frame)) == multiset(AskedOf(p.books, frame)) + AskedBy(r.1, frame)
      && |r.1.nacks| <= 1
      && (|r.1.nacks| == 1 ==> r.1.nacks[0].frame == frame && r.1.nacks[0].shards != {})
  {
    var b := BookOf(p, frame, now);
    var asks := Unasked(missing, b.asked);
    AsksAreNew(missing, b.asked);
    DisjointUnion(b.asked, ShardSet(asks));
  }

  /** Every other input leaves what was asked as it was. */
  lemma OtherInputsLeaveAsked(p: Policy, input: Input, now: int, frame: int)
    requires !input.Candidates? && (frame in p.books ==> frame in Step(p, input, now).0.books)
    ensures AskedOf(Step(p, input, now).0.books, frame) == AskedOf(p.books, frame)
  {
    match input
    case RepairAccepted(f, index) =>
    case FrameDecoded(f) =>
    case RangeIsGone(from, through) =>
      assert Step(p, input, now).0.books == GivenUp(p.books, from, Offset(from, through) + 1, now);
    case SatisfiedDropped(f, index) =>
    case StaleDropped(f) =>
    case Refusal(f) =>
    case FecImpossible(f) =>
    case Beat =>
  }

  lemma StepAsks(p: Policy, input: Input, now: int, frame: int)
    requires Inv(p) && (frame in p.books ==> frame in Step(p, input, now).0.books)
    ensures var r := Step(p, input, now);
      multiset(AskedOf(r.0.books, frame)) == multiset(AskedOf(p.books, frame)) + AskedBy(r.1, frame)
  {
    if input.Candidates? {
      var r := Ask(p, input.frame, input.missing, input.parity, input.age, input.rtt, input.victim, now);
      AskAsks(p, input.frame, input.missing, input.parity, input.age, input.rtt, input.victim, now);
      if frame != input.frame {
        AskLeavesOthers(p, input.frame, input.missing, input.parity, input.age, input.rtt, input.victim, now, frame);
      }
    } else {
      OtherInputsLeaveAsked(p, input, now, frame);
      OthersAskNothing(p, input, now);
    }
  }

  lemma AskLeavesOthers(p: Policy, frame: int, missing: seq<int>, parity: int, age: int, rtt: Option<int>,
                        victim: int, now: int, other: int)
    requires other != frame
    requires other in p.books ==> other in Ask(p, frame, missing, parity, age, rtt, victim, now).0.books
    ensures AskedOf(Ask(p, frame, missing, parity, age, rtt, victim, now).0.books, other) == AskedOf(p.books, other)
  {}

  ghost function TotalAsked(p: Policy, events: seq<Event>, frame: int): multiset<int>
    decreases |events|
  {
    if events == [] then multiset{}
    else
      var r := Step(p, events[0].input, events[0].now);
      AskedBy(r.1, frame) + TotalAsked(r.0, events[1..], frame)
  }

  /** Over any run that keeps a frame's book, the shards asked are exactly those
      the book gains, so none is asked twice. */
  lemma {:induction false} EachShardAskedOnce(p: Policy, events: seq<Event>, frame: int)
    requires Inv(p) && AllProper(p, events) && Kept(p, events, frame)
    ensures multiset(AskedOf(Run(p, events).books, frame))
         == multiset(AskedOf(p.books, frame)) + TotalAsked(p, events, frame)
    ensures forall s :: TotalAsked(p, events, frame)[s] <= 1
    decreases |events|
  {
    if events != [] {
      var r := Step(p, events[0].input, events[0].now);
      StepKeeps(p, events[0].input, events[0].now);
      StepAsks(p, events[0].input, events[0].now, frame);
      EachShardAskedOnce(r.0, events[1..], frame);
    }
    forall s
      ensures TotalAsked(p, events, frame)[s] <= 1
    {
      var all := multiset(AskedOf(Run(p, events).books, frame));
      assert all[s] <= 1;
      assert all[s] == multiset(AskedOf(p.books, frame))[s] + TotalAsked(p, events, frame)[s];
    }
  }

  // ----- Each frame is given up on once -------------------------------------

  /** The input ends the wait of this frame's own repair. */
  predicate Reaches(p: Policy, input: Input, frame: int, now: int) {
    match input
    case RangeIsGone(from, through) => Offset(from, frame) <= Offset(from, through)
    case Refusal(f) => f == frame
    case Beat => frame in p.books && Overdue(p.cfg, p.books[frame], now)
    case _ => false
  }

  lemma {:induction false} SortedHolds(s: set<int>, x: int)
    ensures x in Sorted(s) <==> x in s
    decreases |s|
  {
    if s != {} { SortedHolds(s - {Oldest(s)}, x); }
  }

  lemma {:induction false} SortedRises(s: set<int>, i: nat, j: nat)
    requires i < j < |Sorted(s)|
    ensures Sorted(s)[i] < Sorted(s)[j]
    decreases |s|
  {
    var rest := s - {Oldest(s)};
    if i == 0 {
      assert Sorted(s)[j] == Sorted(rest)[j - 1];
      SortedHolds(rest, Sorted(rest)[j - 1]);
    } else {
      SortedRises(rest, i - 1, j - 1);
    }
  }

  predicate Distinct(frames: seq<int>) {
    forall i, j :: 0 <= i < j < |frames| ==> frames[i] != frames[j]
  }

  lemma SortedIsDistinct(s: set<int>)
    ensures Distinct(Sorted(s))
  {
    forall i, j | 0 <= i < j < |Sorted(s)|
      ensures Sorted(s)[i] != Sorted(s)[j]
    {
      SortedRises(s, i, j);
    }
  }

  /** The asked frames of a gone range, in range order, each once. */
  lemma ExpiredFrames(books: map<int, Book>, from: int, n: int, frame: int)
    requires WellKeyed(books) && IsFrame(from) && 0 <= n <= WRAP32
    ensures var list := FramesAt(from, Sorted(Expired(books, from, n)));
      Distinct(list) && (frame in list <==> WasAsked(books, frame) && Offset(from, frame) < n)
  {
    var offsets := Sorted(Expired(books, from, n));
    var list := FramesAt(from, offsets);
    SortedIsDistinct(Expired(books, from, n));
    forall i | 0 <= i < |offsets|
      ensures 0 <= offsets[i] < n && offsets[i] < WRAP32 && WasAsked(books, list[i])
    {
      SortedHolds(Expired(books, from, n), offsets[i]);
      BookedBounds(books, from, n, offsets[i]);
    }
    forall i, j | 0 <= i < j < |list|
      ensures list[i] != list[j]
    {
      FrameAtInverts(from, offsets[i]);
      FrameAtInverts(from, offsets[j]);
    }
    if frame in list {
      var i: int :| 0 <= i < |list| && list[i] == frame;
      FrameAtInverts(from, offsets[i]);
    }
    if WasAsked(books, frame) && Offset(from, frame) < n {
      OffsetInverts(from, frame);
      BookedIs(books, from, n, Offset(from, frame));
      SortedHolds(Expired(books, from, n), Offset(from, frame));
      var i: int :| 0 <= i < |offsets| && offsets[i] == Offset(from, frame);
      assert list[i] == frame;
    }
  }

  lemma GoneEscalates(p: Policy, from: int, through: int, now: int, frame: int)
    requires Inv(p) && IsFrame(from) && IsFrame(through)
    ensures var r := FramesGone(p, from, through, now);
      var reached := WasAsked(p.books, frame) && Offset(from, frame) <= Offset(from, through);
      if r.0.stats.whollyLost > p.stats.whollyLost then r.1.escalations == [from] && !reached
      else Distinct(r.1.escalations) && (frame in r.1.escalations <==> reached)
  {
    OffsetInverts(from, through);
    ExpiredFrames(p.books, from, Offset(from, through) + 1, frame);
  }

  lemma BeatEscalates(p: Policy, now: int, frame: int)
    requires Inv(p)
    ensures var r := OnTick(p, now);
      && r.0.stats.whollyLost == p.stats.whollyLost && Distinct(r.1.escalations)
      && (frame in r.1.escalations <==> WasAsked(p.books, frame) && Reaches(p, Beat, frame, now))
  {
    SortedIsDistinct(OverdueFrames(p, now));
    SortedHolds(OverdueFrames(p, now), frame);
  }

  lemma OthersEscalateNothing(p: Policy, input: Input, now: int)
    requires !input.RangeIsGone? && !input.Beat? && !input.Refusal?
    ensures Step(p, input, now).1.escalations == []
    ensures Step(p, input, now).0.stats.whollyLost == p.stats.whollyLost
  {}

  /** Who is escalated, exactly: the frames asked for whose wait this input ends,
      each once; or, when a range broke and held none of those, its first frame. */
  lemma EscalationsAreExact(p: Policy, input: Input, now: int, frame: int)
    requires Inv(p) && Proper(p, input)
    ensures var r := Step(p, input, now);
      if r.0.stats.whollyLost > p.stats.whollyLost then
        input.RangeIsGone? && r.1.escalations == [input.from]
        && !(WasAsked(p.books, frame) && Reaches(p, input, frame, now))
      else
        Distinct(r.1.escalations)
        && (frame in r.1.escalations <==> WasAsked(p.books, frame) && Reaches(p, input, frame, now))
  {
    match input
    case RangeIsGone(from, through) => GoneEscalates(p, from, through, now, frame);
    case Beat => BeatEscalates(p, now, frame);
    case Refusal(f) =>
    case _ => OthersEscalateNothing(p, input, now);
  }

  predicate SettledAt(books: map<int, Book>, frame: int) {
    frame in books && books[frame].Settled()
  }

  /** Ending a wait settles the book, and a settled book stays settled. */
  lemma StepSettles(p: Policy, input: Input, now: int, frame: int)
    requires Inv(p)
    requires frame in p.books && frame in Step(p, input, now).0.books
    ensures SettledAt(p.books, frame) ==> Step(p, input, now).0.books[frame].fate == p.books[frame].fate
    ensures WasAsked(p.books, frame) && Reaches(p, input, frame, now) ==>
      Step(p, input, now).0.books[frame].fate == Gone
  {}

  ghost function TimesGivenUp(p: Policy, events: seq<Event>, frame: int): nat
    decreases |events|
  {
    if events == [] then 0
    else
      Count(WasAsked(p.books, frame) && Reaches(p, events[0].input, frame, events[0].now))
      + TimesGivenUp(Step(p, events[0].input, events[0].now).0, events[1..], frame)
  }

  /** Over any run that keeps its book, a frame's repair is given up on at most
      once, and never after it decoded. */
  lemma {:induction false} GivenUpOnce(p: Policy, events: seq<Event>, frame: int)
    requires Inv(p) && AllProper(p, events) && Kept(p, events, frame)
    ensures TimesGivenUp(p, events, frame) <= Count(!SettledAt(p.books, frame))
    decreases |events|
  {
    if events != [] {
      var q := Step(p, events[0].input, events[0].now).0;
      StepKeeps(p, events[0].input, events[0].now);
      if frame in p.books { StepSettles(p, events[0].input, events[0].now, frame); }
      GivenUpOnce(q, events[1..], frame);
    }
  }

  /** The round trip a candidate is judged with: none yet, or nonsense, is zero. */
  function RoundTrip(rtt: Option<int>): int {
    if rtt.Some? && rtt.value > 0 then rtt.value else 0
  }

  /** A repair asked for now lands before the frame is stale. An age below zero is
      always in time. */
  predicate InTime(cfg: Config, age: int, rtt: Option<int>) {
    age < 0 || age + RoundTrip(rtt) < cfg.staleBudget
  }

  /** The input asks for this shard of this frame. */
  predicate Asks(p: Policy, input: Input, frame: int, shard: int) {
    match input
    case Candidates(f, missing, parity, age, rtt, _) =>
      && f == frame && shard in missing && |missing| > parity && InTime(p.cfg, age, rtt)
      && (frame !in p.books
          || (p.books[frame].fate == Pending && !p.books[frame].refusedStale && shard !in p.books[frame].asked))
    case _ => false
  }

  /** Exactly when a shard is asked: a past-parity candidate names it, its age and
      the round trip leave it in time, and the frame's book, if there is one, is live,
      was not refused and has not asked it. */
  lemma AsksShardIff(p: Policy, frame: int, missing: seq<int>, parity: int, age: int, rtt: Option<int>,
                     victim: int, now: int, shard: int)
    requires Inv(p)
    ensures shard in AskedBy(Ask(p, frame, missing, parity, age, rtt, victim, now).1, frame) <==>
      Asks(p, Candidates(frame, missing, parity, age, rtt, victim), frame, shard)
  {
    var b := BookOf(p, frame, now);
    UnaskedIs(missing, b.asked);
    assert shard in ShardSet(Unasked(missing, b.asked)) <==> shard in missing && shard !in b.asked;
  }

  lemma InTimeIs(cfg: Config, age: int, rtt: Option<int>)
    ensures InTime(cfg, age, rtt) <==> !TooStale(cfg, age, rtt)
  {}

  /** The book is one that may still ask, past parity and in time. */
  predicate MayAsk(p: Policy, b: Book, missing: seq<int>, parity: int, age: int, rtt: Option<int>) {
    b.fate == Pending && !b.refusedStale && |missing| > parity && InTime(p.cfg, age, rtt)
  }

  ghost function AskedNow(p: Policy, frame: int, missing: seq<int>, parity: int, age: int, rtt: Option<int>): set<int> {
    set s | s in missing && Asks(p, Candidates(frame, missing, parity, age, rtt, 0), frame, s)
  }

  lemma AskedNowIs(p: Policy, frame: int, missing: seq<int>, parity: int, age: int, rtt: Option<int>, now: int)
    ensures var b := BookOf(p, frame, now);
      AskedNow(p, frame, missing, parity, age, rtt)
      == if MayAsk(p, b, missing, parity, age, rtt) then ShardSet(Unasked(missing, b.asked)) else {}
  {
    var b := BookOf(p, frame, now);
    UnaskedIs(missing, b.asked);
    forall s
      ensures s in AskedNow(p, frame, missing, parity, age, rtt) <==>
        MayAsk(p, b, missing, parity, age, rtt) && s in ShardSet(Unasked(missing, b.asked))
    {}
  }

  /** And the one entry sent asks for exactly those, at once. */
  lemma AskSends(p: Policy, frame: int, missing: seq<int>, parity: int, age: int, rtt: Option<int>,
                 victim: int, now: int)
    requires Inv(p)
    ensures var asks := AskedNow(p, frame, missing, parity, age, rtt);
      Ask(p, frame, missing, parity, age, rtt, victim, now).1
      == Decision(if asks == {} then [] else [Entry(frame, asks)], [])
  {
    var b := BookOf(p, frame, now);
    AskedNowIs(p, frame, missing, parity, age, rtt, now);
    InTimeIs(p.cfg, age, rtt);
    AsksAreNew(missing, b.asked);
    assert ShardSet([]) == {};
  }

  /** The book notes them, and the first starts the frame's repair clock. */
  lemma AskNotes(p: Policy, frame: int, missing: seq<int>, parity: int, age: int, rtt: Option<int>,
                 victim: int, now: int) returns (b: Book)
    requires Inv(p)
    ensures var q := Ask(p, frame, missing, parity, age, rtt, victim, now).0;
      frame in q.books && b == q.books[frame]
    ensures b.touched == now
    ensures b.asked == AskedOf(p.books, frame) + AskedNow(p, frame, missing, parity, age, rtt)
    ensures var clock := if frame in p.books then p.books[frame].firstAsk else None;
      b.firstAsk == if clock.Some? || AskedNow(p, frame, missing, parity, age, rtt) == {} then clock else Some(now)
  {
    var was := BookOf(p, frame, now);
    AskedNowIs(p, frame, missing, parity, age, rtt, now);
    InTimeIs(p.cfg, age, rtt);
    AsksAreNew(missing, was.asked);
    assert ShardSet([]) == {} && was.asked + {} == was.asked;
    b := Ask(p, frame, missing, parity, age, rtt, victim, now).0.books[frame];
  }

  /** The input finds a live, unasked frame past parity and too late: from then on it
      is refused. */
  predicate Refuses(p: Policy, input: Input, frame: int) {
    match input
    case Candidates(f, missing, parity, age, rtt, _) =>
      && f == frame && |missing| > parity && !InTime(p.cfg, age, rtt)
      && (frame in p.books ==> p.books[frame].fate == Pending && p.books[frame].asked == {})
    case _ => false
  }

  lemma OthersRefuseNothing(p: Policy, input: Input, now: int, frame: int)
    requires !input.Candidates? && frame in Step(p, input, now).0.books
    ensures frame in p.books && Step(p, input, now).0.books[frame].refusedStale == p.books[frame].refusedStale
  {
    match input
    case RepairAccepted(f, index) =>
    case FrameDecoded(f) =>
    case RangeIsGone(from, through) =>
    case SatisfiedDropped(f, index) =>
    case StaleDropped(f) =>
    case Refusal(f) =>
    case FecImpossible(f) =>
    case Beat =>
  }

  lemma AskRefuses(p: Policy, frame: int, missing: seq<int>, parity: int, age: int, rtt: Option<int>,
                   victim: int, now: int)
    requires Inv(p)
    ensures var q := Ask(p, frame, missing, parity, age, rtt, victim, now).0;
      frame in q.books &&
      (q.books[frame].refusedStale <==>
        (frame in p.books && p.books[frame].refusedStale)
        || Refuses(p, Candidates(frame, missing, parity, age, rtt, victim), frame))
  {
    InTimeIs(p.cfg, age, rtt);
  }

  lemma AskLeavesOtherBooks(p: Policy, frame: int, missing: seq<int>, parity: int, age: int, rtt: Option<int>,
                            victim: int, now: int, other: int)
    requires other != frame && other in Ask(p, frame, missing, parity, age, rtt, victim, now).0.books
    ensures other in p.books
    ensures Ask(p, frame, missing, parity, age, rtt, victim, now).0.books[other] == p.books[other]
  {}

  lemma RefusedIff(p: Policy, input: Input, now: int, frame: int)
    requires Inv(p) && frame in Step(p, input, now).0.books
    ensures Step(p, input, now).0.books[frame].refusedStale <==>
      (frame in p.books && p.books[frame].refusedStale) || Refuses(p, input, frame)
  {
    match input
    case Candidates(f, missing, parity, age, rtt, victim) =>
      if f == frame {
        AskRefuses(p, f, missing, parity, age, rtt, victim, now);
      } else {
        AskLeavesOtherBooks(p, f, missing, parity, age, rtt, victim, now, frame);
      }
    case _ => OthersRefuseNothing(p, input, now, frame);
  }

  /** Refused as stale is refused forever: over any run that keeps its book the frame
      is never asked for. */
  lemma {:induction false} RefusedIsNeverAsked(p: Policy, events: seq<Event>, frame: int)
    requires Inv(p) && AllProper(p, events) && Kept(p, events, frame)
    requires frame in p.books && p.books[frame].refusedStale
    ensures TotalAsked(p, events, frame) == multiset{}
    decreases |events|
  {
    if events != [] {
      var e := events[0];
      var r := Step(p, e.input, e.now);
      StepKeeps(p, e.input, e.now);
      RefusedIff(p, e.input, e.now, frame);
      RefusedIsNeverAsked(r.0, events[1..], frame);
      forall s
        ensures AskedBy(r.1, frame)[s] == 0
      {
        AsksIs(p, e.input, e.now, frame, s);
      }
    }
  }

  lemma AsksIs(p: Policy, input: Input, now: int, frame: int, shard: int)
    requires Inv(p)
    ensures AskedBy(Step(p, input, now).1, frame)[shard] == Count(Asks(p, input, frame, shard))
  {
    match input
    case Candidates(f, missing, parity, age, rtt, victim) =>
      if f == frame {
        AsksShardIff(p, frame, missing, parity, age, rtt, victim, now, shard);
        AskedByOnce(Step(p, input, now).1, frame, shard);
      } else {
        AskAsks(p, f, missing, parity, age, rtt, victim, now);
      }
    case _ => OthersAskNothing(p, input, now);
  }

  lemma AskedByOnce(d: Decision, frame: int, shard: int)
    ensures AskedBy(d, frame)[shard] == Count(shard in AskedBy(d, frame))
  {}

  lemma OthersAskNothing(p: Policy, input: Input, now: int)
    requires !input.Candidates?
    ensures Step(p, input, now).1.nacks == []
  {}

  /** No input of the run asks for the shard once it was asked for. */
  ghost predicate NeverReasks(p: Policy, events: seq<Event>, frame: int, shard: int, asked: bool)
    decreases |events|
  {
    events == [] ||
    var asks := Asks(p, events[0].input, frame, shard);
    !(asked && asks)
    && NeverReasks(Step(p, events[0].input, events[0].now).0, events[1..], frame, shard, asked || asks)
  }

  /** Over any run whatever, a shard is asked at most once if and only if no input
      meets the asking rules for it again: its frame named past parity and in time,
      with no book, or one that has not asked it. */
  lemma {:induction false} AskedOnceIff(p: Policy, events: seq<Event>, frame: int, shard: int, asked: bool)
    requires Inv(p) && AllProper(p, events)
    ensures Count(asked) + TotalAsked(p, events, frame)[shard] <= 1 <==> NeverReasks(p, events, frame, shard, asked)
    decreases |events|
  {
    if events != [] {
      var e := events[0];
      var r := Step(p, e.input, e.now);
      StepKeeps(p, e.input, e.now);
      AsksIs(p, e.input, e.now, frame, shard);
      var asks := Asks(p, e.input, frame, shard);
      AskedOnceIff(r.0, events[1..], frame, shard, asked || asks);
      assert TotalAsked(p, events, frame)[shard] == Count(asks) + TotalAsked(r.0, events[1..], frame)[shard];
    }
  }

  /** A shard asked for, refused, its settled book gone two deadlines later, and
      the same shard missing again. */
  function AskedAgain(cfg: Config, frame: int, shard: int): seq<Event> {
    var ask, late := Candidates(frame, [shard], 0, 0, None, 0), 1 + cfg.repairDeadline * 2;
    [Event(ask, 0), Event(Refusal(frame), 1), Event(Beat, late), Event(ask, late)]
  }

  lemma FreshAsk(p: Policy, frame: int, shard: int, now: int)
    requires frame !in p.books && p.books == map[] && p.cfg.staleBudget > 0
    ensures var r := Ask(p, frame, [shard], 0, 0, None, 0, now);
      && r.1.nacks == [Entry(frame, {shard})] && r.0.cfg == p.cfg
      && r.0.books == map[frame := Book({shard}, {}, Some(now), false, false, Pending, now)]
  {
    assert Unasked([shard], {}) == [shard];
    assert ShardSet([shard]) == {shard} && {} + {shard} == {shard};
  }

  lemma BookLingersOut(p: Policy, frame: int, now: int)
    requires p.books.Keys == {frame} && p.books[frame].Settled()
    requires now - p.books[frame].touched >= p.cfg.repairDeadline * 2
    ensures OnTick(p, now).0.books == map[] && OnTick(p, now).1.nacks == [] && OnTick(p, now).0.cfg == p.cfg
  {}

  /** Not once, ever: under any config that asks at all, that run asks for the
      same shard twice. */
  lemma ShardAskedTwice(cfg: Config, frame: int, shard: int)
    requires IsFrame(frame) && cfg.staleBudget > 0
    ensures AllProper(Fresh(cfg), AskedAgain(cfg, frame, shard))
    ensures TotalAsked(Fresh(cfg), AskedAgain(cfg, frame, shard), frame)[shard] == 2
  {
    var es := AskedAgain(cfg, frame, shard);
    var late := 1 + cfg.repairDeadline * 2;
    FreshAsk(Fresh(cfg), frame, shard, 0);
    var r1 := Step(Fresh(cfg), es[0].input, 0);
    var r2 := Step(r1.0, es[1].input, 1);
    assert r2.0.books.Keys == {frame} && r2.1 == Decision([], [frame]) && r2.0.cfg == cfg;
    BookLingersOut(r2.0, frame, late);
    var r3 := Step(r2.0, es[2].input, late);
    FreshAsk(r3.0, frame, shard, late);
    var r4 := Step(r3.0, es[3].input, late);
    AskedInFour(Fresh(cfg), es, frame, r1, r2, r3, r4);
  }

  lemma AskedInFour(p: Policy, es: seq<Event>, frame: int, r1: (Policy, Decision), r2: (Policy, Decision),
                    r3: (Policy, Decision), r4: (Policy, Decision))
    requires |es| == 4 && r1 == Step(p, es[0].input, es[0].now) && r2 == Step(r1.0, es[1].input, es[1].now)
    requires r3 == Step(r2.0, es[2].input, es[2].now) && r4 == Step(r3.0, es[3].input, es[3].now)
    ensures TotalAsked(p, es, frame)
         == AskedBy(r1.1, frame) + AskedBy(r2.1, frame) + AskedBy(r3.1, frame) + AskedBy(r4.1, frame)
    ensures AllProper(p, es) <==>
      Proper(p, es[0].input) && Proper(r1.0, es[1].input) && Proper(r2.0, es[2].input) && Proper(r3.0, es[3].input)
  {
    var e1, e2, e3 := es[1..], es[1..][1..], es[1..][1..][1..];
    assert TotalAsked(r3.0, e3, frame) == AskedBy(r4.1, frame) + TotalAsked(r4.0, e3[1..], frame);
    assert TotalAsked(r2.0, e2, frame) == AskedBy(r3.1, frame) + TotalAsked(r3.0, e3, frame);
    assert AllProper(r3.0, e3) <==> Proper(r3.0, es[3].input);
    assert AllProper(r2.0, e2) <==> Proper(r2.0, es[2].input) && AllProper(r3.0, e3);
  }
}
