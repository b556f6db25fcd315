/** What a pull answers and what an insert leaves, over every reachable buffer, in
    its fields: when a gap is waited out, concealed or passed. */
module AudioVerdicts {
  import opened Wrappers
  import opened AudioTarget
  import opened AudioJitterBuffer
  import opened AudioPlayoutSteps
  import opened AudioPlayout
  import opened AudioVerdictSteps
  import opened IntSets

  // ----- Pull ---------------------------------------------------------------

  /** In every run a pull of a started buffer plays the next packet when it is
      pending; conceals it, or gives it up for the oldest pending one, exactly when
      due; and otherwise waits. While the consumer has audio nothing is concealed. */
  lemma PullAnswers(cfg: Config, initial: nat, es: seq<Event>, urgent: bool)
    requires Ready(cfg, initial) && Run(cfg, initial, es).b.started
    ensures var b := Run(cfg, initial, es).b;
            var (c, v) := Pull(b, urgent);
            && (v.Conceal? <==> Conceals(b, urgent))
            && (v.Conceal? ==> urgent && v.number == b.next && c == Concealed(b))
            && (b.next in b.pending ==> v == AudioJitterBuffer.Play(b.pending[b.next]) && c == Played(b, b.next))
            && (v.Play? && b.next !in b.pending <==> Resumes(b, urgent))
            && (Resumes(b, urgent) ==>
                  && IsLeast(v.packet.number, b.pending.Keys)
                  && v.packet == b.pending[v.packet.number] && c == Played(b, v.packet.number))
            && (v.Starved? ==> c == b.(stats := b.stats.(starved := b.stats.starved + 1)))
  {
    RunKeeps(cfg, initial, es);
    var b := Run(cfg, initial, es).b;
    if b.next in b.pending {
    } else if b.pending == map[] {
    } else {
      GapAnswers(b, urgent);
    }
  }

  /** Before playout a pull waits for the target, and then plays the oldest. */
  lemma FirstPullAnswers(cfg: Config, initial: nat, es: seq<Event>, urgent: bool)
    requires Ready(cfg, initial) && !Run(cfg, initial, es).b.started
    ensures var b := Run(cfg, initial, es).b;
            var (c, v) := Pull(b, urgent);
            if |b.pending| < b.ad.target then v.Starved? && c == b
            else
              && v.Play? && IsLeast(v.packet.number, b.pending.Keys) && v.packet == b.pending[v.packet.number]
              && c == Played(b.(started := true, next := v.packet.number), v.packet.number)
  {
    RunKeeps(cfg, initial, es);
    var b := Run(cfg, initial, es).b;
    if |b.pending| >= b.ad.target { assert b.pending.Keys != {} by { assert |b.pending| > 0; } }
  }

  // ----- Insert -------------------------------------------------------------

  /** A late packet is dropped and counted, and deepens the target if it came
      narrowly late; a duplicate is only counted. */
  lemma DropAnswers(cfg: Config, initial: nat, es: seq<Event>, p: Packet, arrival: int, pick: int)
      returns (b: Buffer, c: Buffer)
    requires Ready(cfg, initial)
    ensures b == Run(cfg, initial, es).b && Usable(b) && c == Insert(b, p, arrival, pick)
    ensures TooLate(b, p) ==>
              c == Turned(b, p, Deeper(Roused(b, p), cfg.maxTarget, b.next - p.number),
                          b.stats.(inserted := b.stats.inserted + 1, late := b.stats.late + 1))
    ensures !TooLate(b, p) && p.number in b.pending ==>
              c == Turned(b, p, Roused(b, p),
                          b.stats.(inserted := b.stats.inserted + 1, duplicates := b.stats.duplicates + 1))
  {
    RunKeeps(cfg, initial, es);
    b := Run(cfg, initial, es).b;
    c := Insert(b, p, arrival, pick);
    if TooLate(b, p) {
      LateIs(b, p, arrival, pick);
    } else if p.number in b.pending {
      DuplicateIs(b, p, arrival, pick);
    }
  }

  /** In playout a packet that joins is pending, unless the buffer overgrew: then
      playout skips to the target's worth that ends at the newest, if that lies ahead,
      and what it passes is dropped. */
  lemma JoinAnswers(cfg: Config, initial: nat, es: seq<Event>, p: Packet, arrival: int, pick: int)
      returns (b: Buffer, c: Buffer)
    requires Ready(cfg, initial)
    ensures b == Run(cfg, initial, es).b && Usable(b) && c == Insert(b, p, arrival, pick)
    ensures b.started && Joins(b, p) ==>
              Settles(Joined(b, p, arrival), c)
  {
    RunKeeps(cfg, initial, es);
    b := Run(cfg, initial, es).b;
    c := Insert(b, p, arrival, pick);
    if b.started && Joins(b, p) {
      JoinIs(b, p, arrival, pick);
      OvergrownIs(Joined(b, p, arrival), p.number);
    }
  }

  // ----- Before playout -----------------------------------------------------

  /** Before playout a new packet joins what is pending, or starts over when far off,
      and the newest target's worth stays. */
  lemma PrimeAnswers(cfg: Config, initial: nat, es: seq<Event>, p: Packet, arrival: int, pick: int)
      returns (b: Buffer, c: Buffer)
    requires Ready(cfg, initial)
    ensures b == Run(cfg, initial, es).b && Usable(b) && c == Insert(b, p, arrival, pick)
    ensures !b.started && p.number !in b.pending ==> Trimmed(Primed(b, p, arrival, pick), c)
  {
    RunKeeps(cfg, initial, es);
    b := Run(cfg, initial, es).b;
    c := Insert(b, p, arrival, pick);
    if !b.started && p.number !in b.pending {
      PrimedIs(b, p, arrival, pick);
      TrimIs(Primed(b, p, arrival, pick));
    }
  }

  /** An announced quiet only marks itself and starts the adaptation's windows over. */
  lemma QuietAnswers(cfg: Config, initial: nat, es: seq<Event>)
    requires Ready(cfg, initial)
    ensures var b := Run(cfg, initial, es).b;
            Run(cfg, initial, es + [AnnouncedQuiet]).b
            == b.(quiet := true, ad := b.ad.(anchor := None, window := [], cursor := 0))
  {
    RunKeeps(cfg, initial, es);
    assert (es + [AnnouncedQuiet])[..|es|] == es;
  }

  // ----- What the marks remember --------------------------------------------

  /** A quiet was announced, and no wire-carried packet ahead of the last one played has
      arrived since. */
  ghost predicate Hushed(cfg: Config, initial: nat, es: seq<Event>)
    decreases |es|
  {
    es != [] &&
    var init := es[..|es| - 1];
    var h, e := Run(cfg, initial, init), es[|es| - 1];
    e.AnnouncedQuiet?
    || (Hushed(cfg, initial, init)
        && (e.Inserted? && Enabled(h, e) ==>
              e.packet.recovered || (h.b.lastPlayed.Some? && e.packet.number <= h.b.lastPlayed.value)))
  }

  /** The concealments since a packet last played or playout last skipped. */
  ghost function Concealing(cfg: Config, initial: nat, es: seq<Event>): int
    decreases |es|
  {
    if es == [] then 0
    else
      var init := es[..|es| - 1];
      var b, e, c := Run(cfg, initial, init).b, es[|es| - 1], Run(cfg, initial, es).b;
      if c.stats.played != b.stats.played || c.stats.recenters != b.stats.recenters then 0
      else Concealing(cfg, initial, init) + c.stats.plc - b.stats.plc
  }

  /** In every run the buffer takes the stream for quiet just when it was announced and
      not ended, and counts against its budget just the concealments in a row. */
  lemma {:induction false} MarksRemember(cfg: Config, initial: nat, es: seq<Event>)
    requires Ready(cfg, initial)
    ensures Run(cfg, initial, es).b.quiet == Hushed(cfg, initial, es)
    ensures Run(cfg, initial, es).b.conceals == Concealing(cfg, initial, es)
    decreases |es|
  {
    if es != [] {
      var init := es[..|es| - 1];
      var h, e := Run(cfg, initial, init), es[|es| - 1];
      MarksRemember(cfg, initial, init);
      RunKeeps(cfg, initial, init);
      StepMarks(h, e);
    }
  }
}
