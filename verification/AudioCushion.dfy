/** Over runs of the player: the cushion a path earned is shed one packet at a
    time, each paid for by a whole step of arrivals. */
module AudioCushion {
  import opened AudioTarget
  import opened AudioJitterBuffer
  import opened AudioPlayoutSteps
  import opened AudioPlayout
  import opened IntSets

  lemma {:induction false} TrimKeepsTarget(b: Buffer)
    ensures TrimToTarget(b).ad == b.ad
    decreases |b.pending|
  {
    if |b.pending| > b.ad.target && b.pending.Keys != {} {
      var oldest := Oldest(b.pending.Keys);
      assert (b.pending - {oldest}).Keys == b.pending.Keys - {oldest};
      TrimKeepsTarget(b.(pending := b.pending - {oldest},
                         stats := b.stats.(droppedBeforePlayout := b.stats.droppedBeforePlayout + 1)));
    }
  }

  /** One arrival from `b` to `c`, with the cushion still earned. */
  ghost predicate Slowly(b: Buffer, c: Buffer) {
    Earned(CushionOf(c.ad), b.cfg) && FellSlowly(CushionOf(b.ad), CushionOf(c.ad), b.cfg, 1)
  }

  lemma JoinFallsSlowly(b: Buffer, p: Packet, arrival: int, pick: int) returns (c: Buffer)
    requires Usable(b) && Earned(CushionOf(b.ad), b.cfg)
    ensures c == Join(b, p, arrival, pick) && Slowly(b, c)
  {
    var r := Reprime(b, p, pick);
    assert CushionOf(r.ad) == CushionOf(b.ad) && Usable(r) && r.cfg == b.cfg;
    var ad := ArrivalFallsSlowly(r.ad, r.cfg, r.started, p.number, p.recovered, arrival);
    TrimKeepsTarget(Admit(r, p, arrival));
    c := Join(b, p, arrival, pick);
    assert c.ad == ad;
  }

  lemma SortFallsSlowly(b: Buffer, p: Packet, arrival: int, pick: int) returns (c: Buffer)
    requires Usable(b) && Earned(CushionOf(b.ad), b.cfg)
    ensures c == Sort(b, p, arrival, pick) && Slowly(b, c)
  {
    if Late(b, p) {
      LateFallsSlowly(b.ad, b.cfg, b.next - p.number);
      c := DropLate(b, p);
    } else if p.number in b.pending {
      c := DropDuplicate(Rewind(b, p));
      OneFallsSlowly(CushionOf(b.ad), CushionOf(c.ad), b.cfg, 1);
    } else {
      c := JoinFallsSlowly(Rewind(b, p), p, arrival, pick);
    }
  }

  lemma WakeLeavesCushion(b: Buffer, p: Packet) returns (w: Buffer)
    requires Usable(b)
    ensures w == Wake(b.(stats := b.stats.(inserted := b.stats.inserted + 1)), p)
    ensures Usable(w) && w.cfg == b.cfg && CushionOf(w.ad) == CushionOf(b.ad)
  {
    w := Wake(b.(stats := b.stats.(inserted := b.stats.inserted + 1)), p);
  }

  lemma InsertFallsSlowly(b: Buffer, p: Packet, arrival: int, pick: int) returns (c: Buffer)
    requires Usable(b) && Earned(CushionOf(b.ad), b.cfg)
    ensures c == Insert(b, p, arrival, pick) && Slowly(b, c)
  {
    var w := WakeLeavesCushion(b, p);
    c := SortFallsSlowly(w, p, arrival, pick);
  }

  function Arrivals(es: seq<Event>): nat {
    if es == [] then 0
    else Arrivals(es[..|es| - 1]) + One(es[|es| - 1])
  }

  function One(e: Event): nat {
    if e.Inserted? then 1 else 0
  }

  lemma StepFallsSlowly(h: History, e: Event) returns (g: History)
    requires HistoryInv(h) && Earned(CushionOf(h.b.ad), h.b.cfg)
    ensures g == Step(h, e) && Earned(CushionOf(g.b.ad), h.b.cfg)
    ensures FellSlowly(CushionOf(h.b.ad), CushionOf(g.b.ad), h.b.cfg, One(e))
  {
    g := Step(h, e);
    if Enabled(h, e) && e.Inserted? {
      var c := InsertFallsSlowly(h.b, e.packet, e.arrival, e.pick);
    } else {
      assert CushionOf(g.b.ad) == CushionOf(h.b.ad);
      OneFallsSlowly(CushionOf(h.b.ad), CushionOf(g.b.ad), h.b.cfg, One(e));
    }
  }

  /** From any point of any run at which the cushion is earned: it loses a packet
      only once a whole hold of arrivals has passed, and each packet it loses takes
      a whole step of arrivals more. */
  lemma {:induction false} CushionFallsSlowly(cfg: Config, initial: nat, es: seq<Event>, k: nat)
    requires Ready(cfg, initial) && k <= |es| && Earned(CushionOf(Run(cfg, initial, es[..k]).b.ad), cfg)
    ensures Arrivals(es[..k]) <= Arrivals(es)
    ensures var c, d := CushionOf(Run(cfg, initial, es[..k]).b.ad), CushionOf(Run(cfg, initial, es).b.ad);
            Earned(d, cfg) && FellSlowly(c, d, cfg, Arrivals(es) - Arrivals(es[..k]))
    decreases |es|
  {
    if k == |es| {
      assert es[..k] == es;
    } else {
      var init, e := es[..|es| - 1], es[|es| - 1];
      assert init[..k] == es[..k];
      CushionFallsSlowly(cfg, initial, init, k);
      RunKeeps(cfg, initial, init);
      var h := Run(cfg, initial, init);
      var g := StepFallsSlowly(h, e);
      FallsAddUp(CushionOf(Run(cfg, initial, es[..k]).b.ad), CushionOf(h.b.ad), CushionOf(g.b.ad), cfg,
                 Arrivals(init) - Arrivals(es[..k]), One(e));
    }
  }
}
