/** The client's half of targeted repair: which shards to ask for, and which
    frames to give up on. Frame numbers are raw u32 values. */
module ClientNackPolicy {
  import opened Wrappers
  import opened IntSets
  import opened SerialArithmetic

  datatype Fate = Pending | Decoded | Gone

  datatype Book = Book(
    asked: set<int>, accepted: set<int>, firstAsk: Option<int>,
    refusedStale: bool, sawRepair: bool, fate: Fate, touched: int)
  {
    predicate Settled() { fate != Pending }
  }

  datatype Config = Config(staleBudget: int, repairDeadline: int, maxTracked: nat)

  datatype Stats = Stats(
    pastParity: nat, entries: nat, shardsAsked: nat, suppressedStale: nat, repairShards: nat,
    completedByRepair: nat, escalated: nat, deferred: nat, late: nat, duplicate: nat,
    refusals: nat, refusalsActedOn: nat, refusalsIgnored: nat, superseded: nat, whollyLost: nat)

  datatype Policy = Policy(cfg: Config, books: map<int, Book>, stats: Stats)

  datatype Entry = Entry(frame: int, shards: set<int>)

  datatype Decision = Decision(nacks: seq<Entry>, escalations: seq<int>)

  function NoDecision(): Decision {
    Decision([], [])
  }

  function Fresh(cfg: Config): Policy {
    Policy(cfg, map[], Stats(0, 0, 0, 0, 0, 0, 0, 0, 0, 0, 0, 0, 0, 0, 0))
  }

  predicate IsFrame(frame: int) {
    0 <= frame < WRAP32
  }

  predicate WellKeyed(books: map<int, Book>) {
    forall k :: k in books ==> IsFrame(k)
  }

  // ----- Gone ranges: the books are walked, never the range -----------------

  /** How far past `from` a frame lies, wrapping. */
  function Offset(from: int, frame: int): int {
    (frame - from) % WRAP32
  }

  function FrameAt(from: int, offset: int): int {
    (from + offset) % WRAP32
  }

  function GiveUp(b: Book, now: int): Book {
    if b.Settled() then b else b.(fate := Gone, touched := now)
  }

  /** The books at offsets below `n` are given up. */
  function GivenUp(books: map<int, Book>, from: int, n: int, now: int): map<int, Book> {
    map k | k in books :: if Offset(from, k) < n then GiveUp(books[k], now) else books[k]
  }

  /** Offsets below `n` that have a book. */
  function Booked(books: map<int, Book>, from: int, n: int): set<int> {
    set k | k in books && Offset(from, k) < n :: Offset(from, k)
  }

  predicate WasAsked(books: map<int, Book>, frame: int) {
    frame in books && !books[frame].Settled() && books[frame].asked != {}
  }

  /** Offsets below `n` asked for and never completed. */
  function Expired(books: map<int, Book>, from: int, n: int): set<int> {
    set o | o in Booked(books, from, n) && WasAsked(books, FrameAt(from, o))
  }

  predicate DiedUnasked(books: map<int, Book>, frame: int) {
    frame in books && !books[frame].Settled() && books[frame].asked == {}
  }

  function FramesAt(from: int, offsets: seq<int>): seq<int> {
    seq(|offsets|, i requires 0 <= i < |offsets| => FrameAt(from, offsets[i]))
  }

  /** One escalation heals the whole range, unless an asked frame escalated. */
  function WholeLoss(p: Policy, from: int, broke: bool, escalations: seq<int>): (Policy, Decision) {
    if broke && escalations == [] then
      (p.(stats := p.stats.(whollyLost := p.stats.whollyLost + 1)), Decision([], [from]))
    else (p, Decision([], escalations))
  }

  predicate BrokeUnhealed(books: map<int, Book>, from: int, n: int) {
    || (exists k :: k in books && Offset(from, k) < n && DiedUnasked(books, k))
    || n > |set k | k in books && Offset(from, k) < n|
  }

  ghost function FramesGone(p: Policy, from: int, through: int, now: int): (Policy, Decision) {
    var n := Offset(from, through) + 1;
    var expired := Expired(p.books, from, n);
    WholeLoss(p.(books := GivenUp(p.books, from, n, now),
                 stats := p.stats.(escalated := p.stats.escalated + |expired|)),
              from, BrokeUnhealed(p.books, from, n), FramesAt(from, Sorted(expired)))
  }

  // ----- The same, visiting every frame of the range ------------------------

  datatype Walk = Walk(books: map<int, Book>, escalations: seq<int>, broke: bool)

  function Visit(w: Walk, frame: int, now: int): Walk {
    if frame !in w.books then w.(broke := true)
    else if w.books[frame].Settled() then w
    else
      var settled := w.books[frame := GiveUp(w.books[frame], now)];
      if w.books[frame].asked != {} then w.(books := settled, escalations := w.escalations + [frame])
      else w.(books := settled, broke := true)
  }

  /** The first `n` frames from `from` on, in order. */
  function WalkRange(books: map<int, Book>, from: int, n: nat, now: int): Walk {
    if n == 0 then Walk(books, [], false)
    else Visit(WalkRange(books, from, n - 1, now), FrameAt(from, n - 1), now)
  }

  function RangeGone(p: Policy, from: int, through: int, now: int): (Policy, Decision) {
    var w := WalkRange(p.books, from, Offset(from, through) + 1, now);
    WholeLoss(p.(books := w.books, stats := p.stats.(escalated := p.stats.escalated + |w.escalations|)),
              from, w.broke, w.escalations)
  }

  // ----- They agree ---------------------------------------------------------

  lemma OffsetInverts(from: int, frame: int)
    requires IsFrame(from) && IsFrame(frame)
    ensures 0 <= Offset(from, frame) < WRAP32 && FrameAt(from, Offset(from, frame)) == frame
  {}

  lemma FrameAtInverts(from: int, offset: int)
    requires IsFrame(from) && 0 <= offset < WRAP32
    ensures IsFrame(FrameAt(from, offset)) && Offset(from, FrameAt(from, offset)) == offset
  {}

  /** A frame is booked at its offset, and nowhere else. */
  lemma BookedIs(books: map<int, Book>, from: int, n: int, o: int)
    requires WellKeyed(books) && IsFrame(from) && 0 <= o < n <= WRAP32
    ensures o in Booked(books, from, n) <==> FrameAt(from, o) in books
  {
    FrameAtInverts(from, o);
    if o in Booked(books, from, n) {
      var k: int :| k in books && Offset(from, k) < n && Offset(from, k) == o;
      OffsetInverts(from, k);
    }
  }

  lemma BookedBounds(books: map<int, Book>, from: int, n: int, o: int)
    requires WellKeyed(books) && IsFrame(from) && o in Booked(books, from, n)
    ensures 0 <= o < n && o < WRAP32
  {}

  lemma {:induction false} SortedAppend(s: set<int>, last: int)
    requires last !in s && forall x :: x in s ==> x < last
    ensures Sorted(s + {last}) == Sorted(s) + [last]
    decreases |s|
  {
    if s == {} {
      assert s + {last} == {last};
      assert Oldest({last}) == last;
      assert {last} - {last} == {};
      assert Sorted({last} - {last}) == [];
    } else {
      var first := Oldest(s);
      assert Oldest(s + {last}) == first;
      SortedAppend(s - {first}, last);
      assert s + {last} - {first} == s - {first} + {last};
    }
  }

  lemma GivenUpStep(books: map<int, Book>, from: int, n: int, now: int)
    requires WellKeyed(books) && IsFrame(from) && 0 <= n < WRAP32
    ensures var f := FrameAt(from, n);
      GivenUp(books, from, n + 1, now)
      == if f in books then GivenUp(books, from, n, now)[f := GiveUp(books[f], now)] else GivenUp(books, from, n, now)
    ensures var f := FrameAt(from, n); f in books ==> GivenUp(books, from, n, now)[f] == books[f]
  {
    FrameAtInverts(from, n);
    forall k | k in books
      ensures Offset(from, k) == n <==> k == FrameAt(from, n)
    {
      OffsetInverts(from, k);
    }
  }

  lemma ExpiredStep(books: map<int, Book>, from: int, n: int)
    requires WellKeyed(books) && IsFrame(from) && 0 <= n < WRAP32
    ensures n !in Expired(books, from, n) && (forall o :: o in Expired(books, from, n) ==> o < n)
    ensures Expired(books, from, n + 1)
         == Expired(books, from, n) + if WasAsked(books, FrameAt(from, n)) then {n} else {}
  {
    var grown := Expired(books, from, n) + if WasAsked(books, FrameAt(from, n)) then {n} else {};
    forall o
      ensures o in Expired(books, from, n + 1) <==> o in grown
    {
      if o in Booked(books, from, n + 1) { BookedBounds(books, from, n + 1, o); }
      if o in Booked(books, from, n) { BookedBounds(books, from, n, o); }
      if 0 <= o <= n { BookedIs(books, from, n + 1, o); }
      if 0 <= o < n { BookedIs(books, from, n, o); }
    }
    if n in Booked(books, from, n) { BookedBounds(books, from, n, n); }
  }

  /** This frame breaks the chain and nothing else will report it. */
  predicate BrokenAt(books: map<int, Book>, from: int, o: int) {
    FrameAt(from, o) !in books || DiedUnasked(books, FrameAt(from, o))
  }

  predicate BrokenBefore(books: map<int, Book>, from: int, n: int) {
    n > 0 && (BrokenAt(books, from, n - 1) || BrokenBefore(books, from, n - 1))
  }

  lemma {:induction false} BrokenBeforeIs(books: map<int, Book>, from: int, n: nat)
    ensures BrokenBefore(books, from, n) <==> exists o :: 0 <= o < n && BrokenAt(books, from, o)
  {
    if n > 0 { BrokenBeforeIs(books, from, n - 1); }
  }

  /** The walk so far: what is given up, escalated and broken among `n` frames. */
  ghost predicate WalkSays(w: Walk, books: map<int, Book>, from: int, n: int, now: int) {
    && w.books == GivenUp(books, from, n, now)
    && w.escalations == FramesAt(from, Sorted(Expired(books, from, n)))
    && (w.broke <==> BrokenBefore(books, from, n))
  }

  lemma EscalationsGrow(books: map<int, Book>, from: int, n: int)
    requires WellKeyed(books) && IsFrame(from) && 0 <= n < WRAP32
    ensures FramesAt(from, Sorted(Expired(books, from, n + 1)))
         == FramesAt(from, Sorted(Expired(books, from, n)))
            + if WasAsked(books, FrameAt(from, n)) then [FrameAt(from, n)] else []
  {
    ExpiredStep(books, from, n);
    if WasAsked(books, FrameAt(from, n)) {
      SortedAppend(Expired(books, from, n), n);
    } else {
      assert Expired(books, from, n) + {} == Expired(books, from, n);
    }
  }

  lemma VisitSays(w: Walk, books: map<int, Book>, from: int, n: int, now: int) returns (v: Walk)
    requires WellKeyed(books) && IsFrame(from) && 0 <= n < WRAP32 && WalkSays(w, books, from, n, now)
    ensures v == Visit(w, FrameAt(from, n), now) && WalkSays(v, books, from, n + 1, now)
  {
    var f := FrameAt(from, n);
    v := Visit(w, f, now);
    GivenUpStep(books, from, n, now);
    EscalationsGrow(books, from, n);
    if f in books {
      assert w.books[f] == books[f];
      if books[f].Settled() { assert w.books[f := books[f]] == w.books; }
    }
  }

  lemma {:induction false} WalkIs(books: map<int, Book>, from: int, n: nat, now: int) returns (w: Walk)
    requires WellKeyed(books) && IsFrame(from) && n <= WRAP32
    ensures w == WalkRange(books, from, n, now) && WalkSays(w, books, from, n, now)
    decreases n
  {
    if n == 0 {
      w := Walk(books, [], false);
    } else {
      var before := WalkIs(books, from, n - 1, now);
      w := VisitSays(before, books, from, n - 1, now);
    }
  }

  // ----- The pigeonhole -----------------------------------------------------

  function Interval(n: int): (r: set<int>)
    ensures forall o :: o in r <==> 0 <= o < n
    ensures 0 <= n ==> |r| == n
  {
    if n <= 0 then {} else Interval(n - 1) + {n - 1}
  }

  /** As many offsets as books: distinct frames lie at distinct offsets. */
  lemma {:induction false} OffsetsAreDistinct(keys: set<int>, from: int)
    requires IsFrame(from) && forall k :: k in keys ==> IsFrame(k)
    ensures |set k | k in keys :: Offset(from, k)| == |keys|
    decreases |keys|
  {
    if keys != {} {
      var any := Oldest(keys);
      var rest := keys - {any};
      OffsetsAreDistinct(rest, from);
      OffsetInverts(from, any);
      var offsets := set k | k in rest :: Offset(from, k);
      if Offset(from, any) in offsets {
        var k: int :| k in rest && Offset(from, k) == Offset(from, any);
        OffsetInverts(from, k);
      }
      assert (set k | k in keys :: Offset(from, k)) == offsets + {Offset(from, any)};
    }
  }

  lemma BookedSize(books: map<int, Book>, from: int, n: int)
    requires WellKeyed(books) && IsFrame(from)
    ensures |Booked(books, from, n)| == |set k | k in books && Offset(from, k) < n|
  {
    var keys := set k | k in books && Offset(from, k) < n;
    OffsetsAreDistinct(keys, from);
    assert Booked(books, from, n) == set k | k in keys :: Offset(from, k);
  }

  /** Fewer books than frames in the range if and only if some frame of the range
      has no book. */
  lemma Pigeonhole(books: map<int, Book>, from: int, n: int)
    requires WellKeyed(books) && IsFrame(from) && 0 <= n <= WRAP32
    ensures n > |set k | k in books && Offset(from, k) < n|
       <==> exists o :: 0 <= o < n && FrameAt(from, o) !in books
  {
    BookedSize(books, from, n);
    var booked := Booked(books, from, n);
    forall o | o in booked
      ensures o in Interval(n)
    {
      BookedBounds(books, from, n, o);
    }
    if booked == Interval(n) {
      forall o | 0 <= o < n
        ensures FrameAt(from, o) in books
      {
        BookedIs(books, from, n, o);
      }
    } else {
      assert booked < Interval(n);
      ProperSubsetIsSmaller(booked, Interval(n));
      var o: int :| o in Interval(n) && o !in booked;
      BookedIs(books, from, n, o);
    }
  }

  lemma ProperSubsetIsSmaller(a: set<int>, b: set<int>)
    requires a < b
    ensures |a| < |b|
  {
    assert b == a + (b - a) && b - a != {};
  }

  lemma BrokeIsBroken(books: map<int, Book>, from: int, n: int)
    requires WellKeyed(books) && IsFrame(from) && 0 <= n <= WRAP32
    ensures BrokeUnhealed(books, from, n) <==> exists o :: 0 <= o < n && BrokenAt(books, from, o)
  {
    Pigeonhole(books, from, n);
    if exists o :: 0 <= o < n && BrokenAt(books, from, o) {
      var o: int :| 0 <= o < n && BrokenAt(books, from, o);
      FrameAtInverts(from, o);
    }
    if exists k :: k in books && Offset(from, k) < n && DiedUnasked(books, k) {
      var k: int :| k in books && Offset(from, k) < n && DiedUnasked(books, k);
      OffsetInverts(from, k);
      assert BrokenAt(books, from, Offset(from, k));
    }
    if exists o :: 0 <= o < n && FrameAt(from, o) !in books {
      var o: int :| 0 <= o < n && FrameAt(from, o) !in books;
      assert BrokenAt(books, from, o);
    }
  }

  lemma {:induction false} SortedSize(s: set<int>)
    ensures |Sorted(s)| == |s|
    decreases |s|
  {
    if s != {} { SortedSize(s - {Oldest(s)}); }
  }

  /** Walking the books is walking the range: for every range of up to 2^32
      frames, the same books are given up, the same counters move, and the same
      escalations come out in the same order. */
  lemma BookWalkRefinesRangeWalk(p: Policy, from: int, through: int, now: int)
    requires WellKeyed(p.books) && IsFrame(from) && IsFrame(through)
    ensures FramesGone(p, from, through, now) == RangeGone(p, from, through, now)
  {
    var n := Offset(from, through) + 1;
    OffsetInverts(from, through);
    var w := WalkIs(p.books, from, n, now);
    BrokeIsBroken(p.books, from, n);
    BrokenBeforeIs(p.books, from, n);
    SortedSize(Expired(p.books, from, n));
  }
}
