/** The steps behind playout. Before it, sorted neighbours among the pending
    numbers stay within the hard cap and the target bounds their count; once it
    has started, nothing pending is behind playout, which never steps back past
    what it played. Inserts and pulls each keep that and lose no packet uncounted. */
module AudioPlayoutSteps {
  import opened Wrappers
  import opened AudioTarget
  import opened AudioJitterBuffer
  import opened IntSets

  /** `pick` is the pending number the source compares before playout: any one
      of them, in no particular order. */
  datatype Event =
    | Inserted(packet: Packet, arrival: int, pick: int)
    | Pulled(urgent: bool)
    | AnnouncedQuiet

  /** The buffer, the packets played so far, and the packets ever inserted. */
  datatype History = History(b: Buffer, played: seq<Packet>, arrived: set<Packet>)

  /** The compared number is a pending one, if there is any. */
  predicate Enabled(h: History, e: Event) {
    e.Inserted? && h.b.pending.Keys != {} ==> e.pick in h.b.pending
  }

  function Play(h: History, b: Buffer, v: Verdict): History {
    History(b, if v.Play? then h.played + [v.packet] else h.played, h.arrived)
  }

  /** One event; what cannot happen changes nothing. */
  ghost function Step(h: History, e: Event): History {
    if !Usable(h.b) || !Enabled(h, e) then h
    else
      match e
      case Inserted(p, arrival, pick) => History(Insert(h.b, p, arrival, pick), h.played, h.arrived + {p})
      case AnnouncedQuiet => h.(b := NoteAnnouncedQuiet(h.b))
      case Pulled(urgent) => Play(h, Pull(h.b, urgent).0, Pull(h.b, urgent).1)
  }

  // ----- Counting numbers in a range ----------------------------------------

  /** Pigeonhole: distinct numbers from `lo` to `hi` number at most hi - lo + 1. */
  lemma {:induction false} Pigeonhole(keys: set<int>, lo: int, hi: int)
    requires forall k :: k in keys ==> lo <= k <= hi
    requires lo <= hi + 1
    ensures |keys| <= hi - lo + 1
    decreases |keys|
  {
    if keys != {} {
      var newest := Newest(keys);
      var rest := keys - {newest};
      Pigeonhole(rest, lo, newest - 1);
      assert keys == rest + {newest};
    }
  }

  // ----- The invariants -----------------------------------------------------

  /** Played, still pending, or dropped for exactly one reason. */
  function Accounted(b: Buffer): nat {
    b.stats.played + |b.pending| + b.stats.late + b.stats.duplicates
    + b.stats.droppedInRecenter + b.stats.droppedBeforePlayout
  }

  ghost predicate Conserved(b: Buffer) {
    b.stats.inserted == Accounted(b)
  }

  ghost predicate Named(b: Buffer) {
    forall k :: k in b.pending ==> b.pending[k].number == k
  }

  /** Before playout: sorted neighbours stay within the hard cap. */
  ghost predicate Linked(keys: set<int>, cap: nat) {
    forall k, m {:trigger HasNext(keys, k, cap), m in keys} ::
      k in keys && m in keys && k < m ==> HasNext(keys, k, cap)
  }

  ghost predicate HasNext(keys: set<int>, k: int, cap: nat) {
    exists j :: j in keys && k < j <= k + cap
  }

  ghost predicate BeforePlayout(b: Buffer) {
    && b.lastPlayed.None? && b.floor.None?
    && |b.pending| <= b.ad.target
    && Linked(b.pending.Keys, b.cfg.HardCap())
  }

  ghost predicate AtOrPast(keys: set<int>, next: int) {
    forall k :: k in keys ==> k >= next
  }

  /** Once started: everything pending is still to come, the buffer is bounded,
      and playout can step back only to slots after the last one played. */
  ghost predicate InPlayout(b: Buffer) {
    && b.lastPlayed.Some? && b.lastPlayed.value < b.next
    && (b.floor.Some? ==> b.lastPlayed.value < b.floor.value <= b.next)
    && AtOrPast(b.pending.Keys, b.next)
    && |b.pending| <= b.cfg.HardCap()
  }

  ghost predicate Inv(b: Buffer) {
    && Usable(b) && Named(b)
    && (if b.started then InPlayout(b) else BeforePlayout(b))
  }

  // ----- Insert -------------------------------------------------------------

  lemma WakeKeeps(b: Buffer, p: Packet)
    requires Inv(b)
    ensures Inv(Wake(b, p)) && Wake(b, p).pending == b.pending && Wake(b, p).stats == b.stats
    ensures Wake(b, p).started == b.started && Wake(b, p).cfg == b.cfg
    ensures Wake(b, p).lastPlayed == b.lastPlayed
  {
  }

  lemma DropLateKeeps(b: Buffer, p: Packet)
    requires Inv(b) && Late(b, p)
    ensures Inv(DropLate(b, p))
  {
  }

  lemma RewindKeeps(b: Buffer, p: Packet)
    requires Inv(b) && Rewinds(b, p)
    ensures Inv(b.(next := p.number))
  {
  }

  lemma AdmitKeeps(b: Buffer, p: Packet, arrival: int)
    requires Usable(b) && Named(b) && p.number !in b.pending
    ensures var c := Admit(b, p, arrival);
            && Usable(c) && Named(c)
            && |c.pending| == |b.pending| + 1 && c.pending.Keys == b.pending.Keys + {p.number}
            && c == b.(ad := c.ad, pending := c.pending)
            && (!b.started ==> c.ad.target == b.ad.target)
  {
    NoteArrivalIsSound(b.ad, b.cfg, b.started, p.number, p.recovered, arrival);
    var c := Admit(b, p, arrival);
    assert c.pending.Keys == b.pending.Keys + {p.number};
  }

  lemma RecenterFits(b: Buffer)
    requires Usable(b) && b.pending.Keys != {}
    ensures var newNext := Newest(b.pending.Keys) - b.ad.target + 1;
            var kept := b.pending - Below(b.pending, newNext);
            && |kept| <= b.ad.target && AtOrPast(kept.Keys, newNext)
            && |kept| + |Below(b.pending, newNext)| == |b.pending|
  {
    var newest := Newest(b.pending.Keys);
    var newNext := newest - b.ad.target + 1;
    var below := Below(b.pending, newNext);
    var kept := b.pending - below;
    assert kept.Keys == b.pending.Keys - below;
    Pigeonhole(kept.Keys, newNext, newest);
    assert b.pending.Keys == kept.Keys + below;
    assert |kept| == |kept.Keys|;
  }

  // ----- Before playout -----------------------------------------------------

  /** A newcomer within the cap of any one pending number leaves every sorted
      neighbour within the cap. */
  lemma LinkedAdd(keys: set<int>, x: int, pick: int, cap: nat)
    requires Linked(keys, cap) && x !in keys && pick in keys && Distance(x, pick) <= cap
    ensures Linked(keys + {x}, cap)
  {
    var more := keys + {x};
    forall k, m | k in more && m in more && k < m
      ensures HasNext(more, k, cap)
    {
      if k == x {
        LinkedAddAt(keys, x, pick, m, cap);
      } else if m != x || k < pick {
        assert HasNext(keys, k, cap);
        var j: int :| j in keys && k < j <= k + cap;
        assert j in more;
      } else {
        assert x in more && k < x <= k + cap;
      }
    }
  }

  lemma LinkedAddAt(keys: set<int>, x: int, pick: int, m: int, cap: nat)
    requires Linked(keys, cap) && x !in keys && pick in keys && Distance(x, pick) <= cap
    requires m in keys && x < m
    ensures HasNext(keys + {x}, x, cap)
  {
    if pick > x {
      assert pick in keys + {x};
    } else {
      // From the greatest pending number under x, the next one is past x.
      var below := set k | k in keys && k < x;
      assert pick in below;
      var e := Newest(below);
      assert HasNext(keys, e, cap);
      var j: int :| j in keys && e < j <= e + cap;
      assert j in below <==> j < x;
      assert j in keys + {x};
    }
  }

  lemma LinkedDropOldest(keys: set<int>, cap: nat)
    requires Linked(keys, cap) && keys != {}
    ensures Linked(keys - {Oldest(keys)}, cap)
  {
    var oldest := Oldest(keys);
    var rest := keys - {oldest};
    forall k, m | k in rest && m in rest && k < m
      ensures HasNext(rest, k, cap)
    {
      assert HasNext(keys, k, cap);
      var j: int :| j in keys && k < j <= k + cap;
      assert j in rest;
    }
  }

  lemma SecondOldest(keys: set<int>, cap: nat)
    requires Linked(keys, cap) && keys != {} && keys - {Oldest(keys)} != {}
    ensures var rest := keys - {Oldest(keys)};
            && Oldest(keys) < Oldest(rest) <= Oldest(keys) + cap
            && Newest(keys) in rest
  {
    var oldest := Oldest(keys);
    var rest := keys - {oldest};
    assert Oldest(rest) in keys;
    assert HasNext(keys, oldest, cap);
    var j: int :| j in keys && oldest < j <= oldest + cap;
    assert j in rest;
  }

  lemma {:induction false} TrimKeeps(b: Buffer)
    requires Usable(b) && Named(b) && Linked(b.pending.Keys, b.cfg.HardCap())
    ensures var c := TrimToTarget(b);
            && Usable(c) && Named(c) && Linked(c.pending.Keys, b.cfg.HardCap())
            && |c.pending| <= c.ad.target
            && c == b.(pending := c.pending, stats := c.stats)
    decreases |b.pending|
  {
    if |b.pending| > b.ad.target {
      assert |b.pending.Keys| == |b.pending|;
      var oldest := Oldest(b.pending.Keys);
      var rest := b.pending - {oldest};
      assert rest.Keys == b.pending.Keys - {oldest};
      LinkedDropOldest(b.pending.Keys, b.cfg.HardCap());
      TrimKeeps(b.(pending := rest,
                   stats := b.stats.(droppedBeforePlayout := b.stats.droppedBeforePlayout + 1)));
    }
  }

  lemma PrimeKeeps(b: Buffer, p: Packet, arrival: int, pick: int)
    requires Inv(b) && !b.started && p.number !in b.pending
    requires b.pending.Keys != {} ==> pick in b.pending
    ensures Inv(TrimToTarget(Admit(Reprime(b, p, pick), p, arrival)))
  {
    var r := Reprime(b, p, pick);
    AdmitKeeps(r, p, arrival);
    var c := Admit(r, p, arrival);
    assert Linked(c.pending.Keys, b.cfg.HardCap()) by {
      if r.pending.Keys == {} {
        assert c.pending.Keys == {p.number};
      } else {
        LinkedAdd(r.pending.Keys, p.number, pick, b.cfg.HardCap());
      }
    }
    TrimKeeps(c);
  }

  lemma {:induction false} TrimConserves(b: Buffer)
    ensures Accounted(TrimToTarget(b)) == Accounted(b)
    ensures TrimToTarget(b).stats.inserted == b.stats.inserted
    decreases |b.pending|
  {
    if |b.pending| > b.ad.target && b.pending.Keys != {} {
      var oldest := Oldest(b.pending.Keys);
      var rest := b.pending - {oldest};
      assert rest.Keys == b.pending.Keys - {oldest};
      TrimConserves(b.(pending := rest,
                       stats := b.stats.(droppedBeforePlayout := b.stats.droppedBeforePlayout + 1)));
    }
  }

  lemma RecenterConserves(b: Buffer)
    requires Usable(b)
    ensures Accounted(RecenterIfOvergrown(b)) == Accounted(b)
    ensures RecenterIfOvergrown(b).stats.inserted == b.stats.inserted
  {
    if b.pending.Keys != {} {
      RecenterFits(b);
    }
  }

  lemma JoinConserves(b: Buffer, p: Packet, arrival: int, pick: int)
    requires Usable(b) && p.number !in b.pending
    ensures Accounted(Join(b, p, arrival, pick)) == Accounted(b) + 1
    ensures Join(b, p, arrival, pick).stats.inserted == b.stats.inserted
  {
    var m := Reprime(b, p, pick);
    assert p.number !in m.pending && Accounted(m) == Accounted(b);
    NoteArrivalIsSound(m.ad, m.cfg, m.started, p.number, p.recovered, arrival);
    var admitted := Admit(m, p, arrival);
    assert admitted.pending.Keys == m.pending.Keys + {p.number};
    TrimConserves(admitted);
    RecenterConserves(admitted);
  }

  lemma SortConserves(b: Buffer, p: Packet, arrival: int, pick: int)
    requires Usable(b)
    ensures Accounted(Sort(b, p, arrival, pick)) == Accounted(b) + 1
    ensures Sort(b, p, arrival, pick).stats.inserted == b.stats.inserted
  {
    if !Late(b, p) && p.number !in b.pending {
      JoinConserves(Rewind(b, p), p, arrival, pick);
    }
  }

  lemma WakeAccounts(b: Buffer, p: Packet)
    requires Usable(b)
    ensures Usable(Wake(b, p)) && Accounted(Wake(b, p)) == Accounted(b) && Wake(b, p).stats == b.stats
  {
  }

  /** Every insert is accounted for, whichever way it goes. */
  lemma InsertConserves(b: Buffer, p: Packet, arrival: int, pick: int) returns (c: Buffer)
    requires Usable(b) && Conserved(b)
    ensures c == Insert(b, p, arrival, pick) && Conserved(c)
  {
    var counted := b.(stats := b.stats.(inserted := b.stats.inserted + 1));
    WakeAccounts(counted, p);
    var w := Wake(counted, p);
    SortConserves(w, p, arrival, pick);
    c := Sort(w, p, arrival, pick);
  }

  ghost predicate Within(c: map<int, Packet>, b: map<int, Packet>) {
    forall k :: k in c ==> k in b && c[k] == b[k]
  }

  ghost predicate FromOrNew(c: map<int, Packet>, b: map<int, Packet>, p: Packet) {
    forall k :: k in c ==> c[k] == p || (k in b && c[k] == b[k])
  }

  lemma {:induction false} TrimPlays(b: Buffer)
    ensures TrimToTarget(b).lastPlayed == b.lastPlayed
    ensures TrimToTarget(b).stats.played == b.stats.played
    ensures Within(TrimToTarget(b).pending, b.pending) && TrimToTarget(b).cfg == b.cfg
    decreases |b.pending|
  {
    if |b.pending| > b.ad.target && b.pending.Keys != {} {
      var oldest := Oldest(b.pending.Keys);
      assert (b.pending - {oldest}).Keys == b.pending.Keys - {oldest};
      TrimPlays(b.(pending := b.pending - {oldest},
                   stats := b.stats.(droppedBeforePlayout := b.stats.droppedBeforePlayout + 1)));
    }
  }

  // ----- Pull ---------------------------------------------------------------

  /** What one verdict says about the state it leaves: a played packet was
      pending and is past everything played before. */
  ghost predicate Judged(b: Buffer, c: Buffer, v: Verdict) {
    && Inv(c) && Accounted(c) == Accounted(b) && c.stats.inserted == b.stats.inserted
    && Within(c.pending, b.pending) && c.cfg == b.cfg
    && (match v
        case Play(p) =>
          && p.number in b.pending && p == b.pending[p.number] && c.lastPlayed == Some(p.number)
          && (b.lastPlayed.Some? ==> b.lastPlayed.value < p.number)
          && c.stats.played == b.stats.played + 1
        case _ => c.lastPlayed == b.lastPlayed && c.stats.played == b.stats.played)
  }

  /** Playing a pending number removes exactly it. */
  lemma PlayOne(b: Buffer, number: int)
    requires Named(b) && number in b.pending
    ensures var rest := b.pending - {number};
            && rest.Keys == b.pending.Keys - {number} && |rest| == |b.pending| - 1
            && b.pending[number].number == number
  {
    assert (b.pending - {number}).Keys == b.pending.Keys - {number};
  }

  lemma PlayNextJudged(b: Buffer) returns (c: Buffer, v: Verdict)
    requires Inv(b) && b.started && b.next in b.pending
    ensures (c, v) == PlayNext(b) && Judged(b, c, v)
  {
    PlayOne(b, b.next);
    c, v := PlayNext(b).0, PlayNext(b).1;
  }

  lemma ResumeJudged(b: Buffer, oldest: int) returns (c: Buffer, v: Verdict)
    requires Inv(b) && b.started && b.pending.Keys != {} && oldest == Oldest(b.pending.Keys)
    ensures (c, v) == Resume(b, oldest) && Judged(b, c, v)
  {
    PlayOne(b, oldest);
    c, v := Resume(b, oldest).0, Resume(b, oldest).1;
  }

  lemma GapJudged(b: Buffer, urgent: bool) returns (c: Buffer, v: Verdict)
    requires Inv(b) && b.started && b.pending.Keys != {} && b.next !in b.pending
    ensures (c, v) == PullGap(b, Oldest(b.pending.Keys), urgent) && Judged(b, c, v)
  {
    var oldest := Oldest(b.pending.Keys);
    c, v := ResumeJudged(b, oldest);
    c, v := PullGap(b, oldest, urgent).0, PullGap(b, oldest, urgent).1;
  }

  lemma EmptyJudged(b: Buffer, urgent: bool) returns (c: Buffer, v: Verdict)
    requires Inv(b) && b.started && b.pending.Keys == {}
    ensures (c, v) == PullEmpty(b, urgent) && Judged(b, c, v)
  {
    c, v := PullEmpty(b, urgent).0, PullEmpty(b, urgent).1;
  }

  /** The first pull that finds the target starts playout at the oldest. */
  lemma StartJudged(b: Buffer) returns (c: Buffer, v: Verdict)
    requires Inv(b) && !b.started && |b.pending| >= b.ad.target && b.pending.Keys != {}
    ensures var s := b.(started := true, next := Oldest(b.pending.Keys));
            (c, v) == PlayNext(s) && Judged(b, c, v)
  {
    var s := b.(started := true, next := Oldest(b.pending.Keys));
    PlayOne(s, s.next);
    c, v := PlayNext(s).0, PlayNext(s).1;
  }

  lemma PullJudged(b: Buffer, urgent: bool) returns (c: Buffer, v: Verdict)
    requires Inv(b)
    ensures (c, v) == Pull(b, urgent) && Judged(b, c, v)
  {
    if !b.started {
      if |b.pending| < b.ad.target || b.pending.Keys == {} {
        c, v := b, Starved;
      } else {
        c, v := StartJudged(b);
      }
    } else if b.next in b.pending {
      c, v := PlayNextJudged(b);
    } else if b.pending.Keys == {} {
      c, v := EmptyJudged(b, urgent);
    } else {
      c, v := GapJudged(b, urgent);
    }
  }

  // ----- Runs ---------------------------------------------------------------

  ghost predicate Rising(played: seq<Packet>) {
    forall i, j :: 0 <= i < j < |played| ==> played[i].number < played[j].number
  }

  ghost predicate AllArrived(played: seq<Packet>, arrived: set<Packet>) {
    forall i :: 0 <= i < |played| ==> played[i] in arrived
  }

  ghost predicate PendingArrived(pending: map<int, Packet>, arrived: set<Packet>) {
    forall k :: k in pending ==> pending[k] in arrived
  }

  /** The playout so far: as many as counted, in order, all of them inserted. */
  ghost predicate PlayedInv(h: History) {
    && |h.played| == h.b.stats.played
    && (h.b.lastPlayed == if h.played == [] then None else Some(h.played[|h.played| - 1].number))
    && Rising(h.played)
    && AllArrived(h.played, h.arrived)
    && PendingArrived(h.b.pending, h.arrived)
  }

  ghost predicate HistoryInv(h: History) {
    Inv(h.b) && Conserved(h.b) && PlayedInv(h)
  }

  lemma InsertPlayed(h: History, c: Buffer, p: Packet)
    requires PlayedInv(h) && c.lastPlayed == h.b.lastPlayed && c.stats.played == h.b.stats.played
    requires FromOrNew(c.pending, h.b.pending, p)
    ensures PlayedInv(History(c, h.played, h.arrived + {p}))
  {
  }

  lemma PullStep(h: History, urgent: bool)
    requires HistoryInv(h)
    ensures HistoryInv(Step(h, Pulled(urgent)))
  {
    var c, v := PullJudged(h.b, urgent);
    assert Step(h, Pulled(urgent)) == Play(h, c, v);
    PullPlayed(h, c, v);
  }

  lemma PullPlayed(h: History, c: Buffer, v: Verdict)
    requires HistoryInv(h) && Judged(h.b, c, v)
    ensures PlayedInv(Play(h, c, v))
  {
  }
}
