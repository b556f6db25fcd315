/** Whole runs of the jitter buffer: any interleaving of inserts, pulls and
    announced quiets. */
module AudioPlayout {
  import opened AudioTarget
  import opened AudioJitterBuffer
  import opened IntSets
  import opened AudioPlayoutSteps

  // ----- Insert -------------------------------------------------------------

  /** The pigeonhole behind the recenter: overgrown, the newest target's worth
      starts past `next`, so the guard always passes, and what is kept fits. */
  lemma OvergrownRecenters(b: Buffer)
    requires Usable(b) && AtOrPast(b.pending.Keys, b.next) && |b.pending| > b.cfg.HardCap()
    ensures b.pending.Keys != {}
    ensures Newest(b.pending.Keys) - b.ad.target + 1 > b.next
  {
    assert b.pending.Keys != {};
    var newest := Newest(b.pending.Keys);
    Pigeonhole(b.pending.Keys, b.next, newest);
    assert |b.pending.Keys| == |b.pending|;
  }

  lemma RecenterKeeps(b: Buffer)
    requires Usable(b) && Named(b) && b.started
    requires b.lastPlayed.Some? && b.lastPlayed.value < b.next
    requires b.floor.Some? ==> b.lastPlayed.value < b.floor.value <= b.next
    requires AtOrPast(b.pending.Keys, b.next)
    ensures Inv(RecenterIfOvergrown(b))
  {
    if |b.pending| > b.cfg.HardCap() {
      OvergrownRecenters(b);
      RecenterFits(b);
    }
  }

  // ----- Before playout -----------------------------------------------------

  /** So the numbers pending before playout span at most a cap for each neighbour. */
  lemma {:induction false} LinkedSpan(keys: set<int>, cap: nat)
    requires Linked(keys, cap) && keys != {}
    ensures Newest(keys) - Oldest(keys) <= (|keys| - 1) * cap
    decreases |keys|
  {
    var oldest, newest := Oldest(keys), Newest(keys);
    var rest := keys - {oldest};
    if rest == {} {
      assert keys == {oldest};
    } else {
      SecondOldest(keys, cap);
      LinkedDropOldest(keys, cap);
      LinkedSpan(rest, cap);
      assert Newest(rest) == newest && |rest| == |keys| - 1;
      assert (|keys| - 1) * cap == (|rest| - 1) * cap + cap;
    }
  }

  /** What an insert leaves for the playout history. */
  ghost predicate Kept(b: Buffer, c: Buffer, p: Packet) {
    && Inv(c) && c.lastPlayed == b.lastPlayed && c.stats.played == b.stats.played && c.cfg == b.cfg
    && FromOrNew(c.pending, b.pending, p)
  }

  lemma JoinInv(b: Buffer, p: Packet, arrival: int, pick: int)
    requires Inv(b) && (b.pending.Keys != {} ==> pick in b.pending)
    requires p.number !in b.pending && (b.started ==> p.number >= b.next)
    ensures Inv(Join(b, p, arrival, pick))
  {
    if b.started {
      AdmitKeeps(b, p, arrival);
      RecenterKeeps(Admit(b, p, arrival));
    } else {
      PrimeKeeps(b, p, arrival, pick);
    }
  }

  lemma JoinKeeps(b: Buffer, p: Packet, arrival: int, pick: int)
    requires Inv(b) && (b.pending.Keys != {} ==> pick in b.pending)
    requires p.number !in b.pending && (b.started ==> p.number >= b.next)
    ensures Kept(b, Join(b, p, arrival, pick), p)
  {
    JoinInv(b, p, arrival, pick);
    TrimPlays(Admit(Reprime(b, p, pick), p, arrival));
  }

  lemma SortKeeps(b: Buffer, p: Packet, arrival: int, pick: int)
    requires Inv(b) && (b.pending.Keys != {} ==> pick in b.pending)
    ensures Kept(b, Sort(b, p, arrival, pick), p)
  {
    if Late(b, p) {
      DropLateKeeps(b, p);
    } else {
      if Rewinds(b, p) { RewindKeeps(b, p); }
      if p.number !in b.pending { JoinKeeps(Rewind(b, p), p, arrival, pick); }
    }
  }

  lemma InsertKeeps(b: Buffer, p: Packet, arrival: int, pick: int) returns (c: Buffer)
    requires Inv(b) && (b.pending.Keys != {} ==> pick in b.pending)
    ensures c == Insert(b, p, arrival, pick) && Kept(b, c, p)
  {
    var counted := b.(stats := b.stats.(inserted := b.stats.inserted + 1));
    WakeKeeps(counted, p);
    var w := Wake(counted, p);
    SortKeeps(w, p, arrival, pick);
    c := Sort(w, p, arrival, pick);
  }

  // ----- Runs ---------------------------------------------------------------

  lemma InsertStep(h: History, p: Packet, arrival: int, pick: int)
    requires HistoryInv(h) && Enabled(h, Inserted(p, arrival, pick))
    ensures HistoryInv(Step(h, Inserted(p, arrival, pick)))
  {
    var c := InsertKeeps(h.b, p, arrival, pick);
    var d := InsertConserves(h.b, p, arrival, pick);
    InsertPlayed(h, c, p);
    assert Step(h, Inserted(p, arrival, pick)) == History(c, h.played, h.arrived + {p});
  }

  function Start(cfg: Config, initial: nat): History {
    History(AudioJitterBuffer.Fresh(cfg, initial), [], {})
  }

  ghost predicate Ready(cfg: Config, initial: nat) {
    cfg.Valid() && cfg.minTarget <= initial <= cfg.maxTarget
  }

  ghost function Run(cfg: Config, initial: nat, es: seq<Event>): History {
    if es == [] then Start(cfg, initial)
    else Step(Run(cfg, initial, es[..|es| - 1]), es[|es| - 1])
  }

  lemma StepKeepsConfig(h: History, e: Event)
    requires HistoryInv(h)
    ensures Step(h, e).b.cfg == h.b.cfg
  {
    if Enabled(h, e) {
      match e
      case Inserted(p, arrival, pick) =>
        var c := InsertKeeps(h.b, p, arrival, pick);
      case AnnouncedQuiet =>
      case Pulled(urgent) =>
        var c, v := PullJudged(h.b, urgent);
    }
  }

  lemma {:induction false} RunKeeps(cfg: Config, initial: nat, es: seq<Event>)
    requires Ready(cfg, initial)
    ensures HistoryInv(Run(cfg, initial, es)) && Run(cfg, initial, es).b.cfg == cfg
  {
    if es != [] {
      var h, e := Run(cfg, initial, es[..|es| - 1]), es[|es| - 1];
      RunKeeps(cfg, initial, es[..|es| - 1]);
      StepKeepsConfig(h, e);
      if Enabled(h, e) {
        match e
        case Inserted(p, arrival, pick) => InsertStep(h, p, arrival, pick);
        case AnnouncedQuiet =>
        case Pulled(urgent) => PullStep(h, urgent);
      }
    }
  }

  /** In every run packet numbers are played in strictly increasing order, so
      none is played twice and none out of turn, though `next` may rewind; and
      every packet played is one that was inserted. */
  lemma MonotonePlayout(cfg: Config, initial: nat, es: seq<Event>)
    requires Ready(cfg, initial)
    ensures var h := Run(cfg, initial, es);
            && (forall i, j :: 0 <= i < j < |h.played| ==> h.played[i].number < h.played[j].number)
            && (forall i :: 0 <= i < |h.played| ==> h.played[i] in h.arrived)
  {
    RunKeeps(cfg, initial, es);
  }

  /** In every run every inserted packet is played, pending, late, duplicate or
      dropped; pending is bounded; once started nothing pending is behind
      `next`; before that sorted neighbours lie within the hard cap, and so the
      pending span is bounded. */
  lemma PlayoutBounds(cfg: Config, initial: nat, es: seq<Event>)
    requires Ready(cfg, initial)
    ensures var b := Run(cfg, initial, es).b;
            && b.stats.inserted == b.stats.played + |b.pending| + b.stats.late + b.stats.duplicates
                                   + b.stats.droppedInRecenter + b.stats.droppedBeforePlayout
            && |b.pending| <= cfg.HardCap()
            && cfg.minTarget <= b.ad.target <= cfg.maxTarget
            && (b.started ==> AtOrPast(b.pending.Keys, b.next))
            && (!b.started ==> Linked(b.pending.Keys, cfg.HardCap()))
            && (!b.started && b.pending.Keys != {} ==>
                  Newest(b.pending.Keys) - Oldest(b.pending.Keys) <= (|b.pending| - 1) * cfg.HardCap())
  {
    RunKeeps(cfg, initial, es);
    var b := Run(cfg, initial, es).b;
    if !b.started && b.pending.Keys != {} {
      LinkedSpan(b.pending.Keys, cfg.HardCap());
      assert |b.pending.Keys| == |b.pending|;
    }
  }

  /** The neighbours, not every pair: three inserts may leave two pending
      numbers farther apart than the hard cap. */
  lemma PairsMayExceedTheCap()
    ensures var b := Run(DEFAULT, 5, PAIRS).b;
            && 0 in b.pending && 48 in b.pending && Distance(0, 48) > b.cfg.HardCap()
  {
    var p0, p1, p2 := Packet(0, [], true), Packet(24, [], true), Packet(48, [], true);
    assert PAIRS[..2] == [Inserted(p0, 0, 0), Inserted(p1, 0, 0)];
    assert PAIRS[..2][..1] == [Inserted(p0, 0, 0)];
    assert PAIRS[..2][..1][..0] == [];
    RunKeeps(DEFAULT, 5, PAIRS[..2]);
    RunKeeps(DEFAULT, 5, PAIRS[..2][..1]);
    var h1 := Step(Start(DEFAULT, 5), Inserted(p0, 0, 0));
    assert h1.b.pending == map[0 := p0];
    var h2 := Step(h1, Inserted(p1, 0, 0));
    assert h2.b.pending == map[0 := p0, 24 := p1];
    var h3 := Step(h2, Inserted(p2, 0, 24));
    assert h3.b.pending == map[0 := p0, 24 := p1, 48 := p2];
  }

  const PAIRS := [Inserted(Packet(0, [], true), 0, 0),
                  Inserted(Packet(24, [], true), 0, 0),
                  Inserted(Packet(48, [], true), 0, 24)]
}
