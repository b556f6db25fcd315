/** The repair policy in its mutable form: the dictionary of books is walked and
    written in place, and each method is tied to the step the theorems are about. */
module NackBooks {
  import opened Wrappers
  import opened IntSets
  import opened SerialArithmetic
  import opened ClientNackPolicy
  import opened NackRuns

  /** Books of a gone range, among those already visited. */
  function InRange(keys: set<int>, from: int, n: int): set<int> {
    set k | k in keys && Offset(from, k) < n
  }

  function AskedAmong(books: map<int, Book>, keys: set<int>, from: int, n: int): set<int> {
    set k | k in keys && Offset(from, k) < n && WasAsked(books, k)
  }

  predicate UnaskedDied(books: map<int, Book>, keys: set<int>, from: int, n: int) {
    exists k :: k in keys && Offset(from, k) < n && DiedUnasked(books, k)
  }

  /** The asked books by offset are the expired offsets, one for one. */
  lemma AskedAreExpired(books: map<int, Book>, from: int, n: int)
    requires WellKeyed(books) && IsFrame(from) && 0 <= n <= WRAP32
    ensures var keys := AskedAmong(books, books.Keys, from, n);
      (set k | k in keys :: Offset(from, k)) == Expired(books, from, n) && |keys| == |Expired(books, from, n)|
  {
    var keys := AskedAmong(books, books.Keys, from, n);
    var offsets := set k | k in keys :: Offset(from, k);
    OffsetsAreDistinct(keys, from);
    forall o
      ensures o in offsets <==> o in Expired(books, from, n)
    {
      if o in offsets {
        var k: int :| k in keys && Offset(from, k) == o;
        OffsetInverts(from, k);
        BookedIs(books, from, n, o);
      }
      if o in Expired(books, from, n) {
        BookedBounds(books, from, n, o);
        FrameAtInverts(from, o);
        BookedIs(books, from, n, o);
        assert FrameAt(from, o) in keys;
      }
    }
  }

  /** The books once the keys visited so far have been given up. */
  function GivenUpAmong(books: map<int, Book>, keys: set<int>, from: int, n: int, now: int): map<int, Book> {
    map k | k in books :: if k in keys && Offset(from, k) < n then GiveUp(books[k], now) else books[k]
  }

  lemma NoneVisited(books: map<int, Book>, from: int, n: int, now: int)
    ensures GivenUpAmong(books, {}, from, n, now) == books && AskedAmong(books, {}, from, n) == {}
    ensures InRange({}, from, n) == {} && !UnaskedDied(books, {}, from, n)
  {}

  lemma AllVisited(books: map<int, Book>, from: int, n: int, now: int)
    ensures GivenUpAmong(books, books.Keys, from, n, now) == GivenUp(books, from, n, now)
  {}

  lemma OutOfRangeVisited(books: map<int, Book>, keys: set<int>, key: int, from: int, n: int, now: int)
    requires key in books && Offset(from, key) >= n
    ensures GivenUpAmong(books, keys + {key}, from, n, now) == GivenUpAmong(books, keys, from, n, now)
    ensures AskedAmong(books, keys + {key}, from, n) == AskedAmong(books, keys, from, n)
    ensures InRange(keys + {key}, from, n) == InRange(keys, from, n)
    ensures UnaskedDied(books, keys + {key}, from, n) == UnaskedDied(books, keys, from, n)
  {}

  lemma InRangeVisited(books: map<int, Book>, keys: set<int>, key: int, from: int, n: int, now: int)
    requires key in books && key !in keys && Offset(from, key) < n
    ensures GivenUpAmong(books, keys + {key}, from, n, now)
         == GivenUpAmong(books, keys, from, n, now)[key := GiveUp(books[key], now)]
    ensures GivenUpAmong(books, keys, from, n, now)[key] == books[key]
    ensures AskedAmong(books, keys + {key}, from, n)
         == AskedAmong(books, keys, from, n) + if WasAsked(books, key) then {key} else {}
    ensures |InRange(keys + {key}, from, n)| == |InRange(keys, from, n)| + 1
    ensures UnaskedDied(books, keys + {key}, from, n) == (UnaskedDied(books, keys, from, n) || DiedUnasked(books, key))
  {
    assert InRange(keys + {key}, from, n) == InRange(keys, from, n) + {key};
    assert key in keys + {key};
  }

  /** The books once the keys visited so far have had their beat. */
  function BeatenAmong(p: Policy, keys: set<int>, now: int): map<int, Book> {
    map k | k in p.books && (k in keys ==> Lingers(p.cfg, Aged(p.cfg, p.books[k], now), now))
      :: if k in keys then Aged(p.cfg, p.books[k], now) else p.books[k]
  }

  function OverdueAmong(p: Policy, keys: set<int>, now: int): set<int> {
    set k | k in keys && k in p.books && Overdue(p.cfg, p.books[k], now)
  }

  lemma BeatVisited(p: Policy, keys: set<int>, key: int, now: int)
    requires key in p.books && key !in keys
    ensures key in BeatenAmong(p, keys, now) && BeatenAmong(p, keys, now)[key] == p.books[key]
    ensures var book := Aged(p.cfg, p.books[key], now);
      BeatenAmong(p, keys + {key}, now)
      == if Lingers(p.cfg, book, now) then BeatenAmong(p, keys, now)[key := book]
         else BeatenAmong(p, keys, now) - {key}
    ensures OverdueAmong(p, keys + {key}, now)
         == OverdueAmong(p, keys, now) + if Overdue(p.cfg, p.books[key], now) then {key} else {}
    ensures key !in OverdueAmong(p, keys, now)
  {}

  lemma BeatStartsAndEnds(p: Policy, now: int)
    ensures BeatenAmong(p, {}, now) == p.books && OverdueAmong(p, {}, now) == {}
    ensures BeatenAmong(p, p.books.Keys, now) == OnTick(p, now).0.books
    ensures OverdueAmong(p, p.books.Keys, now) == OverdueFrames(p, now)
  {}

  /** The list has each of these once and nothing else. */
  ghost predicate Lists(list: seq<int>, s: set<int>) {
    (forall k :: k in list <==> k in s) && |list| == |s|
  }

  lemma ListsOneMore(list: seq<int>, s: set<int>, k: int)
    requires Lists(list, s) && k !in s
    ensures Lists(list + [k], s + {k})
  {}

  lemma OneMoved(todo: set<int>, done: set<int>, key: int)
    requires key in todo && done !! todo
    ensures done + {key} !! todo - {key} && (done + {key}) + (todo - {key}) == done + todo
    ensures |todo - {key}| < |todo|
  {}

  class NackBooks {
    const config: Config
    var books: map<int, Book>
    var stats: Stats

    ghost function State(): Policy
      reads this
    {
      Policy(config, books, stats)
    }

    constructor (cfg: Config)
      ensures State() == Fresh(cfg)
    {
      config, books := cfg, map[];
      stats := Stats(0, 0, 0, 0, 0, 0, 0, 0, 0, 0, 0, 0, 0, 0, 0);
    }

    method SettleBook(key: int, now: int)
      requires key in books
      modifies this`books
      ensures books == old(books)[key := GiveUp(old(books)[key], now)]
    {
      var book := books[key];
      if book.Settled() {
        assert books[key := book] == books;
      } else {
        books := books[key := book.(fate := Gone, touched := now)];
      }
    }

    /** Walks the books, however long the range is. */
    method WalkBooks(from: int, n: int, now: int) returns (asked: set<int>, broke: bool, booked: nat)
      modifies this`books
      ensures books == GivenUp(old(books), from, n, now)
      ensures asked == AskedAmong(old(books), old(books).Keys, from, n)
      ensures broke <==> UnaskedDied(old(books), old(books).Keys, from, n)
      ensures booked == |InRange(old(books).Keys, from, n)|
    {
      ghost var before := books;
      asked, broke, booked := {}, false, 0;
      var todo := books.Keys;
      ghost var done: set<int> := {};
      NoneVisited(before, from, n, now);
      while todo != {}
        invariant done !! todo && done + todo == before.Keys
        invariant books == GivenUpAmong(before, done, from, n, now)
        invariant asked == AskedAmong(before, done, from, n)
        invariant broke == UnaskedDied(before, done, from, n)
        invariant booked == |InRange(done, from, n)|
        decreases |todo|
      {
        ghost var any := Oldest(todo);
        var key: int :| key in todo;
        if Offset(from, key) < n {
          InRangeVisited(before, done, key, from, n, now);
          booked := booked + 1;
          var book := books[key];
          if !book.Settled() {
            if book.asked != {} { asked := asked + {key}; } else { broke := true; }
          }
          SettleBook(key, now);
        } else {
          OutOfRangeVisited(before, done, key, from, n, now);
        }
        OneMoved(todo, done, key);
        todo, done := todo - {key}, done + {key};
      }
      AllVisited(before, from, n, now);
    }

    method RangeWentAway(from: int, through: int, now: int) returns (d: Decision)
      requires WellKeyed(books) && IsFrame(from) && IsFrame(through)
      modifies this
      ensures (State(), d) == FramesGone(old(State()), from, through, now)
    {
      OffsetInverts(from, through);
      var n := Offset(from, through) + 1;
      AskedAreExpired(books, from, n);
      var asked, broke, booked := WalkBooks(from, n, now);
      if n > booked { broke := true; }
      stats := stats.(escalated := stats.escalated + |asked|);
      var order := Ascending(set k | k in asked :: Offset(from, k));
      var escalations := FramesAt(from, order);
      if broke && escalations == [] {
        stats := stats.(whollyLost := stats.whollyLost + 1);
        escalations := [from];
      }
      d := Decision([], escalations);
    }

    /** The book touched longest ago. */
    method OldestBook() returns (victim: int)
      requires books != map[]
      ensures IsOldest(books, victim)
    {
      var todo := books.Keys;
      ghost var any := Oldest(todo);
      victim :| victim in todo;
      todo := todo - {victim};
      while todo != {}
        invariant todo <= books.Keys && victim in books
        invariant forall k :: k in books && k !in todo ==> books[victim].touched <= books[k].touched
        decreases |todo|
      {
        ghost var next := Oldest(todo);
        var key: int :| key in todo;
        if books[key].touched < books[victim].touched { victim := key; }
        todo := todo - {key};
      }
    }

    method CandidatesSeen(frame: int, missing: seq<int>, parity: int, age: int, rtt: Option<int>, now: int)
      returns (d: Decision, ghost victim: int)
      modifies this
      ensures frame !in old(books) && Full(old(State())) ==> IsOldest(old(books), victim)
      ensures (State(), d) == Ask(old(State()), frame, missing, parity, age, rtt, victim, now)
    {
      var book;
      book, victim := MakeBook(frame, now);
      d := NoDecision();
      if !book.Settled() && !book.refusedStale && |missing| > parity {
        book, d := JudgeAsk(frame, book, missing, age, rtt, now);
      }
      books := books[frame := book];
    }

    /** The frame's book, or a new one with room made for it. */
    method MakeBook(frame: int, now: int) returns (book: Book, ghost victim: int)
      modifies this`books
      ensures frame !in old(books) && Full(old(State())) ==> IsOldest(old(books), victim)
      ensures book == BookOf(old(State()), frame, now)
      ensures books == WithRoom(old(State()), frame, victim)
    {
      victim := 0;
      book := NewBook(now);
      if frame in books {
        book := books[frame].(touched := now);
      } else if |books| >= config.maxTracked && books != map[] {
        var oldest := OldestBook();
        books := books - {oldest};
        victim := oldest;
      }
    }

    /** Past parity: too late, nothing new, or one entry. */
    method JudgeAsk(frame: int, book: Book, missing: seq<int>, age: int, rtt: Option<int>, now: int)
      returns (b: Book, d: Decision)
      modifies this`stats
      ensures var past, asks := CountPastParity(old(State()), book), Unasked(missing, book.asked);
        (State().(books := books[frame := b]), d) ==
          if TooStale(config, age, rtt) then (Refuse(past, frame, book), NoDecision())
          else if asks == [] then (past.(books := past.books[frame := book]), NoDecision())
          else (AskFor(past, frame, book, asks, now), Decision([Entry(frame, ShardSet(asks))], []))
    {
      b, d := book, NoDecision();
      if b.asked == {} { stats := stats.(pastParity := stats.pastParity + 1); }
      var asks := Unasked(missing, b.asked);
      if TooStale(config, age, rtt) {
        if b.asked == {} {
          b := b.(refusedStale := true);
          stats := stats.(suppressedStale := stats.suppressedStale + 1);
        }
      } else if asks != [] {
        b := b.(asked := b.asked + ShardSet(asks),
                firstAsk := if b.firstAsk.None? then Some(now) else b.firstAsk);
        stats := stats.(entries := stats.entries + 1, shardsAsked := stats.shardsAsked + |asks|);
        d := Decision([Entry(frame, ShardSet(asks))], []);
      }
    }

    method RefusalSeen(frame: int, now: int) returns (d: Decision)
      modifies this
      ensures (State(), d) == OnRefusal(old(State()), frame, now)
    {
      stats := stats.(refusals := stats.refusals + 1);
      if frame in books && !books[frame].Settled() && books[frame].asked != {} {
        stats := stats.(refusalsActedOn := stats.refusalsActedOn + 1);
        books := books[frame := books[frame].(fate := Gone, touched := now)];
        return Decision([], [frame]);
      }
      stats := stats.(refusalsIgnored := stats.refusalsIgnored + 1);
      return NoDecision();
    }

    method RepairSeen(frame: int, index: int, now: int)
      modifies this
      ensures State() == OnRepair(old(State()), frame, index, now)
    {
      stats := stats.(repairShards := stats.repairShards + 1);
      if frame in books {
        var book := books[frame].(sawRepair := true);
        if index in book.asked { book := book.(accepted := book.accepted + {index}); }
        books := books[frame := book.(touched := now)];
      }
    }

    method DecodeSeen(frame: int, now: int)
      modifies this
      ensures State() == OnDecoded(old(State()), frame, now)
    {
      if frame !in books || books[frame].Settled() { return; }
      var book := books[frame];
      if book.sawRepair && book.asked != {} {
        stats := stats.(completedByRepair := stats.completedByRepair + 1);
      }
      books := books[frame := book.(fate := Decoded, touched := now)];
    }

    method ShouldDeferFecImpossible(frame: int, now: int) returns (yes: bool)
      modifies this`stats
      ensures yes == Defers(old(State()), frame, now) && State() == OnFecImpossible(old(State()), frame, now)
    {
      yes := frame in books && !books[frame].Settled() && !books[frame].refusedStale
             && books[frame].firstAsk.Some? && now - books[frame].firstAsk.value < config.repairDeadline;
      if yes { stats := stats.(deferred := stats.deferred + 1); }
    }

    /** One book's beat: its deadline, then whether it lingers. */
    method BeatBook(key: int, now: int) returns (overdue: bool)
      requires key in books
      modifies this`books, this`stats
      ensures overdue == Overdue(config, old(books)[key], now)
      ensures books == (var book := Aged(config, old(books)[key], now);
        if Lingers(config, book, now) then old(books)[key := book] else old(books) - {key})
      ensures stats == old(stats).(escalated := old(stats).escalated + Count(overdue))
    {
      var book := books[key];
      overdue := !book.Settled() && book.firstAsk.Some? && now - book.firstAsk.value >= config.repairDeadline;
      if overdue {
        stats := stats.(escalated := stats.escalated + 1);
        book := book.(fate := Gone, touched := now);
        books := books[key := book];
      } else {
        assert books[key := book] == books;
      }
      if book.Settled() && now - book.touched >= config.repairDeadline * 2 {
        books := books - {key};
        assert old(books) - {key} == books;
      }
    }

    /** The cadence beat: deadlines, then books that lingered long enough. The
        escalations come out in the dictionary's own order. */
    method TickBeat(now: int) returns (escalations: seq<int>)
      modifies this
      ensures State() == OnTick(old(State()), now).0
      ensures forall k :: k in escalations <==> k in OverdueFrames(old(State()), now)
      ensures |escalations| == |OverdueFrames(old(State()), now)|
    {
      ghost var p := State();
      escalations := [];
      var todo := books.Keys;
      ghost var done: set<int> := {};
      BeatStartsAndEnds(p, now);
      while todo != {}
        invariant done !! todo && done + todo == p.books.Keys && config == p.cfg
        invariant books == BeatenAmong(p, done, now)
        invariant Lists(escalations, OverdueAmong(p, done, now))
        invariant stats == p.stats.(escalated := p.stats.escalated + |escalations|)
        decreases |todo|
      {
        ghost var any := Oldest(todo);
        var key: int :| key in todo;
        BeatVisited(p, done, key, now);
        var overdue := BeatBook(key, now);
        if overdue {
          ListsOneMore(escalations, OverdueAmong(p, done, now), key);
          escalations := escalations + [key];
        }
        OneMoved(todo, done, key);
        todo, done := todo - {key}, done + {key};
      }
    }
  }
}
