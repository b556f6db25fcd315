/** Before playout: exactly when every pending pair stays within the hard cap, and
    the window of numbers inside which the wrapped comparisons tell the truth. */
module AudioPrePlayout {
  import opened Wrappers
  import opened AudioTarget
  import opened AudioJitterBuffer
  import opened AudioPlayoutSteps
  import opened AudioPlayout
  import opened IntSets
  import opened SerialArithmetic

  // ----- One insert ---------------------------------------------------------

  ghost predicate PairsWithin(keys: set<int>, cap: nat) {
    forall k, m :: k in keys && m in keys ==> Distance(k, m) <= cap
  }

  /** `number` is within the cap of the oldest and of the newest of these. */
  ghost predicate Near(keys: set<int>, number: int, cap: nat) {
    keys != {} ==> Distance(number, Oldest(keys)) <= cap && Distance(number, Newest(keys)) <= cap
  }

  /** The pending numbers a newcomer is kept beside: all while there is room; when
      full, all but the oldest, or none if the newcomer is older still and goes
      at once. */
  ghost function Beside(keys: set<int>, target: nat, number: int): set<int> {
    if |keys| < target || keys == {} then keys
    else if number < Oldest(keys) then {}
    else keys - {Oldest(keys)}
  }

  /** What a caller can check before inserting: the packet re-primes, or lands near
      both ends of what it will be kept beside. */
  ghost predicate LandsNear(b: Buffer, p: Packet, pick: int) {
    Reprimes(b, p, pick) || Near(Beside(b.pending.Keys, b.ad.target, p.number), p.number, b.cfg.HardCap())
  }

  lemma NearIffWithin(keys: set<int>, x: int, cap: nat)
    requires PairsWithin(keys, cap) && x !in keys
    ensures PairsWithin(keys + {x}, cap) <==> Near(keys, x, cap)
  {
    if keys != {} && PairsWithin(keys + {x}, cap) {
      assert Oldest(keys) in keys + {x} && Newest(keys) in keys + {x} && x in keys + {x};
    }
  }

  lemma OldestOf(keys: set<int>, m: int)
    requires IsLeast(m, keys)
    ensures Oldest(keys) == m
  {}

  /** One past the target, the trim drops exactly the oldest. */
  lemma TrimOne(b: Buffer)
    requires |b.pending| == b.ad.target + 1
    ensures TrimToTarget(b).pending.Keys == b.pending.Keys - {Oldest(b.pending.Keys)}
  {
    assert |b.pending.Keys| == |b.pending|;
    var oldest := Oldest(b.pending.Keys);
    var rest := b.(pending := b.pending - {oldest},
                   stats := b.stats.(droppedBeforePlayout := b.stats.droppedBeforePlayout + 1));
    assert rest.pending.Keys == b.pending.Keys - {oldest};
    assert |rest.pending| == b.ad.target;
    assert TrimToTarget(rest) == rest;
  }

  /** What is pending after a newcomer: it and those it is kept beside, or, when it
      goes at once, those there were. */
  lemma JoinLeaves(b: Buffer, p: Packet, arrival: int, pick: int)
    requires Inv(b) && !b.started && p.number !in b.pending && !Reprimes(b, p, pick)
    ensures var keys := b.pending.Keys;
      Join(b, p, arrival, pick).pending.Keys ==
        if |keys| == b.ad.target && p.number < Oldest(keys) then keys
        else Beside(keys, b.ad.target, p.number) + {p.number}
  {
    AdmitKeeps(b, p, arrival);
    var c := Admit(b, p, arrival);
    var keys := b.pending.Keys;
    assert |keys| == |b.pending|;
    if |keys| < b.ad.target {
      assert TrimToTarget(c) == c;
    } else {
      TrimOne(c);
      OldestOf(c.pending.Keys, if p.number < Oldest(keys) then p.number else Oldest(keys));
    }
  }

  lemma ReprimeLeaves(b: Buffer, p: Packet, arrival: int, pick: int)
    requires Inv(b) && !b.started && p.number !in b.pending && Reprimes(b, p, pick)
    ensures Join(b, p, arrival, pick).pending.Keys == {p.number}
  {
    var r := Reprime(b, p, pick);
    AdmitKeeps(r, p, arrival);
    var c := Admit(r, p, arrival);
    assert TrimToTarget(c) == c;
  }

  /** Exactly when a newcomer keeps every pending pair within the hard cap. */
  lemma JoinKeepsPairsIff(b: Buffer, p: Packet, arrival: int, pick: int)
    requires Inv(b) && !b.started && p.number !in b.pending
    requires PairsWithin(b.pending.Keys, b.cfg.HardCap())
    ensures PairsWithin(Join(b, p, arrival, pick).pending.Keys, b.cfg.HardCap()) <==> LandsNear(b, p, pick)
  {
    var keys := b.pending.Keys;
    if Reprimes(b, p, pick) {
      ReprimeLeaves(b, p, arrival, pick);
    } else {
      JoinLeaves(b, p, arrival, pick);
      NearIffWithin(Beside(keys, b.ad.target, p.number), p.number, b.cfg.HardCap());
    }
  }

  // ----- Runs ---------------------------------------------------------------

  /** Whatever is pending before playout is pairwise within the cap. */
  ghost predicate PairsHold(b: Buffer) {
    !b.started ==> PairsWithin(b.pending.Keys, b.cfg.HardCap())
  }

  /** An insert before playout, of a number not pending, that lands far. */
  ghost predicate Spreads(b: Buffer, e: Event) {
    && e.Inserted? && !b.started && e.packet.number !in b.pending
    && (b.pending.Keys != {} ==> e.pick in b.pending)
    && !LandsNear(b, e.packet, e.pick)
  }

  lemma InsertKeepsPairsIff(b: Buffer, p: Packet, arrival: int, pick: int) returns (c: Buffer)
    requires Inv(b) && !b.started && PairsHold(b) && (b.pending.Keys != {} ==> pick in b.pending)
    ensures c == Insert(b, p, arrival, pick) && !c.started
    ensures PairsHold(c) <==> !Spreads(b, Inserted(p, arrival, pick))
  {
    var counted := b.(stats := b.stats.(inserted := b.stats.inserted + 1));
    WakeKeeps(counted, p);
    var w := Wake(counted, p);
    assert w.ad.target == b.ad.target && w.pending == b.pending && w.cfg == b.cfg && !w.started;
    c := Sort(w, p, arrival, pick);
    if p.number !in b.pending {
      assert Rewind(w, p) == w && c == Join(w, p, arrival, pick);
      JoinKeepsPairsIff(w, p, arrival, pick);
      JoinStaysUnstarted(w, p, arrival, pick);
    }
  }

  lemma JoinStaysUnstarted(b: Buffer, p: Packet, arrival: int, pick: int)
    requires Inv(b) && !b.started && p.number !in b.pending && (b.pending.Keys != {} ==> pick in b.pending)
    ensures !Join(b, p, arrival, pick).started && Join(b, p, arrival, pick).cfg == b.cfg
  {
    var r := Reprime(b, p, pick);
    AdmitKeeps(r, p, arrival);
    TrimStays(Admit(r, p, arrival));
  }

  lemma {:induction false} TrimStays(b: Buffer)
    ensures TrimToTarget(b).started == b.started && TrimToTarget(b).cfg == b.cfg
    decreases |b.pending|
  {
    if |b.pending| > b.ad.target && b.pending.Keys != {} {
      var oldest := Oldest(b.pending.Keys);
      assert (b.pending - {oldest}).Keys == b.pending.Keys - {oldest};
      TrimStays(b.(pending := b.pending - {oldest},
                   stats := b.stats.(droppedBeforePlayout := b.stats.droppedBeforePlayout + 1)));
    }
  }

  lemma StepKeepsPairsIff(h: History, e: Event)
    requires HistoryInv(h) && PairsHold(h.b)
    ensures PairsHold(Step(h, e).b) <==> !Spreads(h.b, e)
  {
    if Enabled(h, e) {
      match e
      case Inserted(p, arrival, pick) =>
        if h.b.started {
          StartedStays(h.b, p, arrival, pick);
        } else {
          var c := InsertKeepsPairsIff(h.b, p, arrival, pick);
        }
      case AnnouncedQuiet =>
      case Pulled(urgent) =>
        var c, v := PullJudged(h.b, urgent);
    }
  }

  lemma StartedStays(b: Buffer, p: Packet, arrival: int, pick: int)
    requires Usable(b) && b.started
    ensures Insert(b, p, arrival, pick).started
  {}

  ghost predicate PairsHoldThroughout(cfg: Config, initial: nat, es: seq<Event>)
    decreases |es|
  {
    PairsHold(Run(cfg, initial, es).b)
    && (es == [] || PairsHoldThroughout(cfg, initial, es[..|es| - 1]))
  }

  ghost predicate NothingSpreads(cfg: Config, initial: nat, es: seq<Event>)
    decreases |es|
  {
    es == [] ||
    (NothingSpreads(cfg, initial, es[..|es| - 1])
     && !Spreads(Run(cfg, initial, es[..|es| - 1]).b, es[|es| - 1]))
  }

  /** In every run, every pair pending before playout stays within the hard cap
      throughout, if and only if no insert lands far from what it is kept beside. */
  lemma {:induction false} PairsHoldIff(cfg: Config, initial: nat, es: seq<Event>)
    requires Ready(cfg, initial)
    ensures PairsHoldThroughout(cfg, initial, es) <==> NothingSpreads(cfg, initial, es)
    decreases |es|
  {
    if es != [] {
      var init, e := es[..|es| - 1], es[|es| - 1];
      PairsHoldIff(cfg, initial, init);
      RunKeeps(cfg, initial, init);
      if PairsHoldThroughout(cfg, initial, init) {
        StepKeepsPairsIff(Run(cfg, initial, init), e);
      }
    }
  }

  // ----- The window of numbers ----------------------------------------------

  /** Every number inserted lies from `lo` to `hi`. */
  ghost predicate NumbersWithin(es: seq<Event>, lo: int, hi: int) {
    forall i :: 0 <= i < |es| && es[i].Inserted? ==> lo <= es[i].packet.number <= hi
  }

  /** So does everything the buffer compares, but for the slots it conceals past
      the newest and the burst's margin. */
  ghost predicate InWindow(b: Buffer, lo: int, hi: int) {
    && (forall k :: k in b.pending ==> lo <= k <= hi)
    && (b.lastPlayed.Some? ==> lo <= b.lastPlayed.value <= hi)
    && b.conceals <= b.cfg.maxConceals
    && (b.started ==> lo <= b.next <= hi + 1 + b.conceals)
    && (b.floor.Some? ==> lo <= b.floor.value <= hi + 1 + b.cfg.maxConceals)
    && (b.ad.burstEnd.Some? ==> lo <= b.ad.burstEnd.value <= hi + b.cfg.HardCap())
  }

  lemma ArrivalKeepsBurst(a: Adaptation, cfg: Config, started: bool, number: int, recovered: bool, arrival: int)
    requires cfg.Valid() && Sound(a, cfg)
    ensures var c := NoteArrival(a, cfg, started, number, recovered, arrival);
            c.burstEnd == a.burstEnd || c.burstEnd.None?
  {}

  lemma AdmitStaysInWindow(b: Buffer, p: Packet, arrival: int, lo: int, hi: int) returns (c: Buffer)
    requires Usable(b) && Named(b) && InWindow(b, lo, hi) && p.number !in b.pending && lo <= p.number <= hi
    ensures c == Admit(b, p, arrival) && InWindow(c, lo, hi) && Usable(c) && c.started == b.started
  {
    AdmitKeeps(b, p, arrival);
    ArrivalKeepsBurst(b.ad, b.cfg, b.started, p.number, p.recovered, arrival);
    c := Admit(b, p, arrival);
  }

  lemma JoinStaysInWindow(b: Buffer, p: Packet, arrival: int, pick: int, lo: int, hi: int)
    requires Inv(b) && InWindow(b, lo, hi) && p.number !in b.pending && lo <= p.number <= hi
    requires b.pending.Keys != {} ==> pick in b.pending
    requires b.started ==> p.number >= b.next
    ensures InWindow(Join(b, p, arrival, pick), lo, hi)
  {
    var c := AdmitStaysInWindow(Reprime(b, p, pick), p, arrival, lo, hi);
    if c.started { RecenterInWindow(c, lo, hi); } else { TrimInWindow(c, lo, hi); }
  }

  lemma RecenterInWindow(b: Buffer, lo: int, hi: int)
    requires Usable(b) && InWindow(b, lo, hi) && b.started
    ensures InWindow(RecenterIfOvergrown(b), lo, hi)
  {}

  lemma {:induction false} TrimInWindow(b: Buffer, lo: int, hi: int)
    requires InWindow(b, lo, hi)
    ensures InWindow(TrimToTarget(b), lo, hi)
    decreases |b.pending|
  {
    if |b.pending| > b.ad.target && b.pending.Keys != {} {
      var oldest := Oldest(b.pending.Keys);
      assert (b.pending - {oldest}).Keys == b.pending.Keys - {oldest};
      TrimInWindow(b.(pending := b.pending - {oldest},
                      stats := b.stats.(droppedBeforePlayout := b.stats.droppedBeforePlayout + 1)), lo, hi);
    }
  }

  lemma WakeStaysInWindow(b: Buffer, p: Packet, lo: int, hi: int)
    requires Inv(b) && InWindow(b, lo, hi) && lo <= p.number <= hi
    ensures InWindow(Wake(b, p), lo, hi)
  {}

  lemma SortStaysInWindow(b: Buffer, p: Packet, arrival: int, pick: int, lo: int, hi: int)
    requires Inv(b) && InWindow(b, lo, hi) && lo <= p.number <= hi
    requires b.pending.Keys != {} ==> pick in b.pending
    ensures InWindow(Sort(b, p, arrival, pick), lo, hi)
  {
    if !Late(b, p) {
      if Rewinds(b, p) { RewindKeeps(b, p); }
      assert InWindow(Rewind(b, p), lo, hi);
      if p.number !in b.pending { JoinStaysInWindow(Rewind(b, p), p, arrival, pick, lo, hi); }
    }
  }

  lemma InsertStaysInWindow(b: Buffer, p: Packet, arrival: int, pick: int, lo: int, hi: int) returns (c: Buffer)
    requires Inv(b) && InWindow(b, lo, hi) && lo <= p.number <= hi
    requires b.pending.Keys != {} ==> pick in b.pending
    ensures c == Insert(b, p, arrival, pick) && InWindow(c, lo, hi)
  {
    var counted := b.(stats := b.stats.(inserted := b.stats.inserted + 1));
    WakeKeeps(counted, p);
    WakeStaysInWindow(counted, p, lo, hi);
    var w := Wake(counted, p);
    SortStaysInWindow(w, p, arrival, pick, lo, hi);
    c := Sort(w, p, arrival, pick);
  }

  lemma PlayStaysInWindow(b: Buffer, number: int, lo: int, hi: int)
    requires InWindow(b, lo, hi) && number in b.pending && b.started
    ensures InWindow(Resume(b, number).0, lo, hi)
    ensures number == b.next ==> InWindow(PlayNext(b).0, lo, hi)
  {}

  lemma ConcealStaysInWindow(b: Buffer, urgent: bool, lo: int, hi: int)
    requires InWindow(b, lo, hi) && b.started
    ensures InWindow(PullEmpty(b, urgent).0, lo, hi)
    ensures InWindow(ConcealOrGoQuiet(b.(floor := None)).0, lo, hi)
  {}

  lemma PullStaysInWindow(b: Buffer, urgent: bool, lo: int, hi: int) returns (c: Buffer)
    requires Inv(b) && InWindow(b, lo, hi)
    ensures c == Pull(b, urgent).0 && InWindow(c, lo, hi)
  {
    c := Pull(b, urgent).0;
    if b.started || (|b.pending| >= b.ad.target && b.pending.Keys != {}) {
      var s := if b.started then b else b.(started := true, next := Oldest(b.pending.Keys));
      assert InWindow(s, lo, hi);
      StartedPullStaysInWindow(s, urgent, lo, hi);
    }
  }

  lemma StartedPullStaysInWindow(b: Buffer, urgent: bool, lo: int, hi: int)
    requires InWindow(b, lo, hi) && b.started
    ensures b.next in b.pending ==> InWindow(PlayNext(b).0, lo, hi)
    ensures b.pending.Keys == {} ==> InWindow(PullEmpty(b, urgent).0, lo, hi)
    ensures b.pending.Keys != {} ==> InWindow(PullGap(b, Oldest(b.pending.Keys), urgent).0, lo, hi)
  {
    if b.next in b.pending { PlayStaysInWindow(b, b.next, lo, hi); }
    if b.pending.Keys != {} { PlayStaysInWindow(b, Oldest(b.pending.Keys), lo, hi); }
    ConcealStaysInWindow(b, urgent, lo, hi);
  }

  lemma {:induction false} RunStaysInWindow(cfg: Config, initial: nat, es: seq<Event>, lo: int, hi: int)
    requires Ready(cfg, initial) && NumbersWithin(es, lo, hi)
    ensures InWindow(Run(cfg, initial, es).b, lo, hi)
    decreases |es|
  {
    if es != [] {
      var h, e := Run(cfg, initial, es[..|es| - 1]), es[|es| - 1];
      RunKeeps(cfg, initial, es[..|es| - 1]);
      RunStaysInWindow(cfg, initial, es[..|es| - 1], lo, hi);
      if Enabled(h, e) {
        match e
        case Inserted(p, arrival, pick) => var c := InsertStaysInWindow(h.b, p, arrival, pick, lo, hi);
        case AnnouncedQuiet =>
        case Pulled(urgent) => var c := PullStaysInWindow(h.b, urgent, lo, hi);
      }
    }
  }

  /** The numbers one step of this buffer may compare: the pending ones and the one
      coming in, where playout stands and stood, and where a recenter would go. */
  ghost predicate Compared(b: Buffer, x: int, lo: int, hi: int) {
    || lo <= x <= hi || x in b.pending || b.lastPlayed == Some(x) || b.floor == Some(x) || b.ad.burstEnd == Some(x)
    || (b.started && x == b.next)
    || (b.pending.Keys != {} && x == Newest(b.pending.Keys) - b.ad.target + 1)
  }

  /** In every run whose packet numbers fall inside one window this much short of
      half the u32 space, any two numbers the buffer compares compare, wrapped,
      as they do here; so its u32 keys and its serial order are these. */
  lemma RunComparesTrue(cfg: Config, initial: nat, es: seq<Event>, lo: int, hi: int, x: int, y: int)
    requires Ready(cfg, initial) && NumbersWithin(es, lo, hi)
    requires hi - lo + 1 + cfg.maxConceals + cfg.HardCap() + cfg.maxTarget < HALF32
    requires Compared(Run(cfg, initial, es).b, x, lo, hi) && Compared(Run(cfg, initial, es).b, y, lo, hi)
    ensures x % WRAP32 == y % WRAP32 <==> x == y
    ensures Distance32(y % WRAP32, x % WRAP32) == x - y
    ensures Distance32(y % WRAP32, x % WRAP32) < 0 <==> x < y
  {
    RunKeeps(cfg, initial, es);
    RunStaysInWindow(cfg, initial, es, lo, hi);
    SerialOrder32(x, y);
    Distance32IsExact(y, x);
  }
}
