/** One frame's book from input to input: what it notes, how it ends, when it goes;
    and so which repairs are live, over whole runs. */
module NackBookLife {
  import opened Wrappers
  import opened IntSets
  import opened SerialArithmetic
  import opened ClientNackPolicy
  import opened NackRuns

  // ----- One input ----------------------------------------------------------

  /** The input ends a pending frame's wait: its range is gone, its ask was refused,
      or a beat finds its repair deadline passed. */
  predicate Ends(b: Book, input: Input, frame: int, deadline: int, now: int) {
    match input
    case RangeIsGone(from, through) => (frame - from) % WRAP32 <= (through - from) % WRAP32
    case Refusal(f) => f == frame && b.asked != {}
    case Beat => b.firstAsk.Some? && now - b.firstAsk.value >= deadline
    case _ => false
  }

  /** What becomes of a frame: it settles once, and stays as it settled. */
  function FateAfter(b: Book, input: Input, frame: int, deadline: int, now: int): Fate {
    if b.fate != Pending then b.fate
    else if input == FrameDecoded(frame) then Decoded
    else if Ends(b, input, frame, deadline, now) then Gone
    else Pending
  }

  /** The input is news of this frame, and so keeps its book longer. */
  predicate Touches(b: Book, input: Input, frame: int) {
    match input
    case Candidates(f, _, _, _, _, _) => f == frame
    case RepairAccepted(f, _) => f == frame
    case SatisfiedDropped(f, index) => f == frame && index in b.asked
    case StaleDropped(f) => f == frame && b.asked != {}
    case _ => false
  }

  function Accepts(b: Book, input: Input, frame: int): set<int> {
    if input.RepairAccepted? && input.frame == frame && input.index in b.asked then {input.index} else {}
  }

  /** What each input writes in a book that was kept before and after it. */
  lemma BookAnswers(p: Policy, input: Input, now: int, frame: int) returns (b: Book, c: Book)
    requires Inv(p) && frame in p.books && frame in Step(p, input, now).0.books
    ensures b == p.books[frame] && c == Step(p, input, now).0.books[frame]
    ensures c.fate == FateAfter(b, input, frame, p.cfg.repairDeadline, now)
    ensures c.touched == if Touches(b, input, frame) || c.fate != b.fate then now else b.touched
    ensures c.sawRepair == (b.sawRepair || (input.RepairAccepted? && input.frame == frame))
    ensures c.accepted == b.accepted + Accepts(b, input, frame)
  {
    b := p.books[frame];
    c := Step(p, input, now).0.books[frame];
    if input.Candidates? {
      c := AskWrites(p, input, now, frame);
    } else if input.RangeIsGone? || input.Beat? {
      c := EndsWrite(p, input, now, frame);
    } else {
      c := NewsWrites(p, input, now, frame);
    }
  }

  lemma AskWrites(p: Policy, input: Input, now: int, frame: int) returns (c: Book)
    requires Inv(p) && frame in p.books && frame in Step(p, input, now).0.books && input.Candidates?
    ensures c == Step(p, input, now).0.books[frame]
    ensures var b := p.books[frame];
            && c.fate == b.fate && c.touched == (if input.frame == frame then now else b.touched)
            && c.sawRepair == b.sawRepair && c.accepted == b.accepted
  {
    c := Step(p, input, now).0.books[frame];
    if input.frame != frame {
      AskLeavesOtherBooks(p, input.frame, input.missing, input.parity, input.age, input.rtt, input.victim, now, frame);
    }
  }

  lemma EndsWrite(p: Policy, input: Input, now: int, frame: int) returns (c: Book)
    requires frame in p.books && frame in Step(p, input, now).0.books && (input.RangeIsGone? || input.Beat?)
    ensures c == Step(p, input, now).0.books[frame]
    ensures var b := p.books[frame];
            var over := b.fate == Pending && Ends(b, input, frame, p.cfg.repairDeadline, now);
            c == if over then b.(fate := Gone, touched := now) else b
  {
    c := Step(p, input, now).0.books[frame];
    if input.RangeIsGone? {
      assert Step(p, input, now).0.books == GivenUp(p.books, input.from, Offset(input.from, input.through) + 1, now);
    }
  }

  lemma NewsWrites(p: Policy, input: Input, now: int, frame: int) returns (c: Book)
    requires frame in p.books && !input.Candidates? && !input.RangeIsGone? && !input.Beat?
    ensures frame in Step(p, input, now).0.books && c == Step(p, input, now).0.books[frame]
    ensures var b := p.books[frame];
            c == b.(fate := FateAfter(b, input, frame, p.cfg.repairDeadline, now),
                    sawRepair := b.sawRepair || (input.RepairAccepted? && input.frame == frame),
                    accepted := b.accepted + Accepts(b, input, frame),
                    touched := if Touches(b, input, frame) || c.fate != b.fate then now else b.touched)
  {
    c := Step(p, input, now).0.books[frame];
    assert p.books[frame].accepted + {} == p.books[frame].accepted;
  }

  /** The ceiling takes this frame's book to make room for another. */
  predicate Evicts(p: Policy, input: Input, frame: int) {
    && input.Candidates? && input.victim == frame && input.frame != frame
    && input.frame !in p.books && |p.books| >= p.cfg.maxTracked
  }

  /** A book opens with a candidate for its frame, and goes when the ceiling takes it
      or a beat finds it settled and untouched for two deadlines. */
  lemma BookComesAndGoes(p: Policy, input: Input, now: int, frame: int)
    requires Inv(p)
    ensures frame in Step(p, input, now).0.books <==>
      || (input.Candidates? && input.frame == frame)
      || (&& frame in p.books && !Evicts(p, input, frame)
          && !(input.Beat? && Lapsed(p.books[frame], frame, p.cfg.repairDeadline, now)))
  {
    if input.Beat? && frame in p.books {
      assert frame in OnTick(p, now).0.books <==> Lingers(p.cfg, Aged(p.cfg, p.books[frame], now), now);
    }
  }

  /** A beat finds the frame settled, by now, and two deadlines old. */
  predicate Lapsed(b: Book, frame: int, deadline: int, now: int) {
    var touched := if FateAfter(b, Beat, frame, deadline, now) != b.fate then now else b.touched;
    FateAfter(b, Beat, frame, deadline, now) != Pending && now - touched >= 2 * deadline
  }

  // ----- A range that went away ---------------------------------------------

  /** The frame is in the range, which may wrap. */
  predicate Lies(frame: int, from: int, through: int) {
    0 <= frame < WRAP32 && (frame - from) % WRAP32 <= (through - from) % WRAP32
  }

  /** Some frame of the range waits on an ask. */
  ghost predicate AskedIn(books: map<int, Book>, from: int, through: int) {
    exists frame :: Lies(frame, from, through)
      && frame in books && books[frame].fate == Pending && books[frame].asked != {}
  }

  /** Some frame of it died unasked, or never landed a shard at all. */
  ghost predicate BrokenIn(books: map<int, Book>, from: int, through: int) {
    exists frame :: Lies(frame, from, through)
      && (frame in books ==> books[frame].fate == Pending && books[frame].asked == {})
  }

  /** In range order, each once. */
  predicate InRangeOrder(frames: seq<int>, from: int) {
    forall i, j :: 0 <= i < j < |frames| ==> (frames[i] - from) % WRAP32 < (frames[j] - from) % WRAP32
  }

  /** When a range goes away its asked frames are escalated, in its own order; when it has
      none and broke all the same, its first frame is, for the whole of it; and when all
      of it had settled, nothing is. */
  lemma RangeEscalates(p: Policy, from: int, through: int, now: int) returns (list: seq<int>)
    requires Inv(p) && IsFrame(from) && IsFrame(through)
    ensures list == FramesGone(p, from, through, now).1.escalations
    ensures AskedIn(p.books, from, through) ==>
      && InRangeOrder(list, from)
      && forall frame :: frame in list <==>
           Lies(frame, from, through) && frame in p.books && p.books[frame].fate == Pending && p.books[frame].asked != {}
    ensures !AskedIn(p.books, from, through) ==>
      list == if BrokenIn(p.books, from, through) then [from] else []
    ensures FramesGone(p, from, through, now).0.stats.whollyLost
            == p.stats.whollyLost + Count(BrokenIn(p.books, from, through) && !AskedIn(p.books, from, through))
  {
    var n := Offset(from, through) + 1;
    list := FramesGone(p, from, through, now).1.escalations;
    BrokenIs(p.books, from, through);
    ExpiredIs(p.books, from, through);
    if AskedIn(p.books, from, through) {
      ExpiredInOrder(p.books, from, n);
      forall frame
        ensures frame in list <==>
          Lies(frame, from, through) && frame in p.books && p.books[frame].fate == Pending && p.books[frame].asked != {}
      {
        ExpiredFrames(p.books, from, n, frame);
      }
    }
  }

  lemma BrokenIs(books: map<int, Book>, from: int, through: int)
    requires WellKeyed(books) && IsFrame(from) && IsFrame(through)
    ensures BrokenIn(books, from, through) <==> BrokeUnhealed(books, from, Offset(from, through) + 1)
  {
    var n := Offset(from, through) + 1;
    Pigeonhole(books, from, n);
    if BrokenIn(books, from, through) {
      var frame :| Lies(frame, from, through)
        && (frame in books ==> books[frame].fate == Pending && books[frame].asked == {});
      OffsetInverts(from, frame);
      if frame in books {
        assert Offset(from, frame) < n && DiedUnasked(books, frame);
      } else {
        assert FrameAt(from, Offset(from, frame)) !in books;
      }
    }
    if BrokeUnhealed(books, from, n) {
      if k :| k in books && Offset(from, k) < n && DiedUnasked(books, k) {
        assert Lies(k, from, through);
      } else {
        var o :| 0 <= o < n && FrameAt(from, o) !in books;
        FrameAtInverts(from, o);
        assert Lies(FrameAt(from, o), from, through);
      }
    }
  }

  lemma ExpiredIs(books: map<int, Book>, from: int, through: int)
    requires WellKeyed(books) && IsFrame(from) && IsFrame(through)
    ensures var frames := FramesAt(from, Sorted(Expired(books, from, Offset(from, through) + 1)));
            AskedIn(books, from, through) <==> frames != []
  {
    var n := Offset(from, through) + 1;
    var frames := FramesAt(from, Sorted(Expired(books, from, n)));
    if AskedIn(books, from, through) {
      var frame :| Lies(frame, from, through)
        && frame in books && books[frame].fate == Pending && books[frame].asked != {};
      ExpiredFrames(books, from, n, frame);
      assert frame in frames;
    }
    if frames != [] {
      ExpiredFrames(books, from, n, frames[0]);
      assert Lies(frames[0], from, through);
    }
  }

  lemma ExpiredInOrder(books: map<int, Book>, from: int, n: int)
    requires WellKeyed(books) && IsFrame(from) && 0 <= n <= WRAP32
    ensures InRangeOrder(FramesAt(from, Sorted(Expired(books, from, n))), from)
  {
    var offsets := Sorted(Expired(books, from, n));
    var frames := FramesAt(from, offsets);
    forall i | 0 <= i < |frames|
      ensures Offset(from, frames[i]) == offsets[i]
    {
      SortedHolds(Expired(books, from, n), offsets[i]);
      BookedBounds(books, from, n, offsets[i]);
      FrameAtInverts(from, offsets[i]);
    }
    forall i, j | 0 <= i < j < |frames|
      ensures Offset(from, frames[i]) < Offset(from, frames[j])
    {
      SortedRises(Expired(books, from, n), i, j);
    }
  }

  // ----- Whole runs ---------------------------------------------------------

  function Clock(books: map<int, Book>, frame: int): Option<int> {
    if frame in books then books[frame].firstAsk else None
  }

  /** When the run first asks for anything of this frame. */
  ghost function FirstAsked(p: Policy, events: seq<Event>, frame: int): Option<int>
    decreases |events|
  {
    if events == [] then None
    else
      var r := Step(p, events[0].input, events[0].now);
      if AskedBy(r.1, frame) != multiset{} then Some(events[0].now) else FirstAsked(r.0, events[1..], frame)
  }

  /** Over any run that keeps its book, a frame's repair clock runs from the first time
      anything of it was asked for. */
  lemma {:induction false} ClockIsFirstAsk(p: Policy, events: seq<Event>, frame: int)
    requires Inv(p) && AllProper(p, events) && Kept(p, events, frame)
    ensures Clock(Run(p, events).books, frame)
            == if Clock(p.books, frame).Some? then Clock(p.books, frame) else FirstAsked(p, events, frame)
    decreases |events|
  {
    if events != [] {
      var e := events[0];
      StepKeeps(p, e.input, e.now);
      StepClocks(p, e.input, e.now, frame);
      ClockIsFirstAsk(Step(p, e.input, e.now).0, events[1..], frame);
    }
  }

  lemma StepClocks(p: Policy, input: Input, now: int, frame: int)
    requires Inv(p) && (frame in p.books ==> frame in Step(p, input, now).0.books)
    ensures var r := Step(p, input, now);
            Clock(r.0.books, frame)
            == if Clock(p.books, frame).Some? || AskedBy(r.1, frame) == multiset{} then Clock(p.books, frame)
               else Some(now)
  {
    var r := Step(p, input, now);
    if input.Candidates? {
      AskClocks(p, input, now, frame);
    } else {
      OthersAskNothing(p, input, now);
      if frame in p.books {
        if input.RangeIsGone? || input.Beat? {
          var c := EndsWrite(p, input, now, frame);
        } else {
          var c := NewsWrites(p, input, now, frame);
        }
      }
    }
  }

  lemma AskClocks(p: Policy, input: Input, now: int, frame: int)
    requires Inv(p) && (frame in p.books ==> frame in Step(p, input, now).0.books) && input.Candidates?
    ensures var r := Step(p, input, now);
            Clock(r.0.books, frame)
            == if Clock(p.books, frame).Some? || AskedBy(r.1, frame) == multiset{} then Clock(p.books, frame)
               else Some(now)
  {
    var r := Step(p, input, now);
    if input.frame == frame {
      AskSends(p, frame, input.missing, input.parity, input.age, input.rtt, input.victim, now);
      var b := AskNotes(p, frame, input.missing, input.parity, input.age, input.rtt, input.victim, now);
      var asks := AskedNow(p, frame, input.missing, input.parity, input.age, input.rtt);
      if s :| s in asks { assert s in AskedBy(r.1, frame); }
    } else {
      AskAsks(p, input.frame, input.missing, input.parity, input.age, input.rtt, input.victim, now);
      if frame in p.books {
        AskLeavesOtherBooks(p, input.frame, input.missing, input.parity, input.age, input.rtt, input.victim, now,
                            frame);
      }
    }
  }

  /** So the IDR waits exactly for a live repair: over any run since before its book
      opened that keeps it, a frame nobody settled, first asked for less than the repair
      deadline ago. */
  lemma DefersIff(p: Policy, events: seq<Event>, frame: int, now: int)
    requires Inv(p) && AllProper(p, events) && Kept(p, events, frame) && frame !in p.books
    ensures var q := Run(p, events);
            var asked := FirstAsked(p, events, frame);
            Defers(q, frame, now) <==>
              && frame in q.books && q.books[frame].fate == Pending
              && asked.Some? && now - asked.value < p.cfg.repairDeadline
  {
    ClockIsFirstAsk(p, events, frame);
    BooksStayBounded(p, events);
    ConfigStays(p, events);
  }

  lemma {:induction false} ConfigStays(p: Policy, events: seq<Event>)
    ensures Run(p, events).cfg == p.cfg
    decreases |events|
  {
    if events != [] { ConfigStays(Step(p, events[0].input, events[0].now).0, events[1..]); }
  }
}
