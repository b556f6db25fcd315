/** The verdicts of a pull and the outcomes of an insert, in the buffer's fields:
    when a missing packet is concealed or given up, when an arriving one is late,
    what a buffer holds once one joined; and the operations' own results as
    those. */
module AudioVerdictSteps {
  import opened Wrappers
  import opened AudioTarget
  import opened AudioJitterBuffer
  import opened AudioPlayoutSteps
  import opened IntSets

  // ----- Pull ---------------------------------------------------------------

  /** Everything pending lies a recentering jump or more past playout. */
  ghost predicate Void(b: Buffer) {
    forall k :: k in b.pending ==> k >= b.next + b.cfg.recenterJump
  }

  /** The concealment budget is spent. */
  predicate Spent(b: Buffer) {
    b.conceals >= b.cfg.maxConceals
  }

  /** A missing packet is concealed: it is due and dry, budget is left, and what is
      pending is near; or nothing is, and no quiet was announced. */
  ghost predicate Conceals(b: Buffer, urgent: bool) {
    && urgent && b.next !in b.pending && !Spent(b)
    && (if b.pending == map[] then !b.quiet else !Void(b))
  }

  /** A missing packet is given up for the oldest pending one. */
  ghost predicate Resumes(b: Buffer, urgent: bool) {
    b.pending != map[] && b.next !in b.pending && (Void(b) || (urgent && Spent(b)))
  }

  /** After playing `number`: playout stands right after it. */
  function Played(b: Buffer, number: int): Buffer {
    b.(pending := b.pending - {number}, lastPlayed := Some(number), next := number + 1,
       conceals := 0, floor := None,
       stats := b.stats.(played := b.stats.played + 1,
                         recenters := b.stats.recenters + Count(number != b.next)))
  }

  /** After concealing the missing packet; an empty buffer may still step back to it. */
  function Concealed(b: Buffer): Buffer {
    b.(next := b.next + 1, conceals := b.conceals + 1,
       floor := if b.pending != map[] then None else if b.floor.None? then Some(b.next) else b.floor,
       stats := b.stats.(plc := b.stats.plc + 1))
  }

  lemma GapAnswers(b: Buffer, urgent: bool)
    requires Inv(b) && b.started && b.pending != map[] && b.next !in b.pending
    ensures var (c, v) := Pull(b, urgent);
            && (v.Conceal? <==> Conceals(b, urgent))
            && (v.Conceal? ==> urgent && v.number == b.next && c == Concealed(b))
            && (v.Play? <==> Resumes(b, urgent))
            && (Resumes(b, urgent) ==>
                  && IsLeast(v.packet.number, b.pending.Keys)
                  && v.packet == b.pending[v.packet.number] && c == Played(b, v.packet.number))
            && (v.Starved? ==> c == b.(stats := b.stats.(starved := b.stats.starved + 1)))
  {
    assert b.pending.Keys != {};
    var oldest := Oldest(b.pending.Keys);
    assert Void(b) <==> oldest >= b.next + b.cfg.recenterJump;
  }

  // ----- Insert -------------------------------------------------------------

  /** The packet ends an announced quiet: wire-carried, and ahead of the last played. */
  predicate Rouses(b: Buffer, p: Packet) {
    b.quiet && !p.recovered && (b.lastPlayed.None? || p.number > b.lastPlayed.value)
  }

  /** It comes too late: behind playout, on no slot playout may step back to, and not
      the one that wakes an empty buffer. */
  predicate TooLate(b: Buffer, p: Packet) {
    && b.started && p.number < b.next
    && !(Rouses(b, p) && b.pending == map[])
    && (p.recovered || b.floor.None? || p.number < b.floor.value)
  }

  /** The adaptation as the insert finds it: a quiet's end opens a wake burst. */
  function Roused(b: Buffer, p: Packet): Adaptation {
    if Rouses(b, p) then b.ad.(burstEnd := Some(p.number + b.cfg.maxTarget + b.cfg.slack)) else b.ad
  }

  /** Only the counts, a quiet's end and the adaptation change. */
  function Turned(b: Buffer, p: Packet, ad: Adaptation, stats: Stats): Buffer {
    b.(quiet := b.quiet && !Rouses(b, p), ad := ad, stats := stats)
  }

  /** A target deepened by as far as a packet came behind, if that was narrowly. */
  function Deeper(ad: Adaptation, max: nat, behind: nat): Adaptation {
    if behind > max then ad
    else
      ad.(target := if ad.target + behind > max then max else ad.target + behind,
          earned := true, holdProof := 0, stepProof := 0)
  }

  lemma LateIs(b: Buffer, p: Packet, arrival: int, pick: int)
    requires Inv(b) && TooLate(b, p)
    ensures Insert(b, p, arrival, pick)
            == Turned(b, p, Deeper(Roused(b, p), b.cfg.maxTarget, b.next - p.number),
                      b.stats.(inserted := b.stats.inserted + 1, late := b.stats.late + 1))
  {
    var w := Wake(b.(stats := b.stats.(inserted := b.stats.inserted + 1)), p);
    assert Late(w, p) && w.next == b.next && w.ad == Roused(b, p);
    assert Insert(b, p, arrival, pick) == DropLate(w, p);
  }

  lemma DuplicateIs(b: Buffer, p: Packet, arrival: int, pick: int)
    requires Inv(b) && !TooLate(b, p) && p.number in b.pending
    ensures Insert(b, p, arrival, pick)
            == Turned(b, p, Roused(b, p),
                      b.stats.(inserted := b.stats.inserted + 1, duplicates := b.stats.duplicates + 1))
  {
    var w := Wake(b.(stats := b.stats.(inserted := b.stats.inserted + 1)), p);
    assert b.started ==> p.number >= b.next;
    assert !Late(w, p) && Rewind(w, p) == w;
  }

  /** The packet is new and in time. */
  predicate Joins(b: Buffer, p: Packet) {
    !TooLate(b, p) && p.number !in b.pending
  }

  /** Where playout stands once a packet joined: it steps back to one behind it, and
      to the one that wakes an empty buffer. */
  function Stepped(b: Buffer, p: Packet): int {
    if (Rouses(b, p) && b.pending == map[]) || p.number < b.next then p.number else b.next
  }

  /** What a started buffer holds with it, before any skip. */
  function Joined(b: Buffer, p: Packet, arrival: int): Buffer
    requires Usable(b)
  {
    b.(pending := b.pending[p.number := p], quiet := b.quiet && !Rouses(b, p), next := Stepped(b, p),
       floor := if !Rouses(b, p) || b.pending != map[] || b.lastPlayed.None? then b.floor
                else Some(b.lastPlayed.value + 1),
       ad := NoteArrival(Roused(b, p), b.cfg, b.started, p.number, p.recovered, arrival),
       stats := b.stats.(inserted := b.stats.inserted + 1))
  }

  /** What a skip to `bound` passes. */
  function Passed(j: Buffer, bound: int): set<int> {
    set k | k in j.pending && k < bound
  }

  /** Playout skipped ahead to `bound`. */
  ghost predicate Skipped(j: Buffer, c: Buffer, bound: int) {
    if bound <= j.next then c == j
    else
      && (forall k :: k in c.pending <==> k in j.pending && k >= bound)
      && (forall k :: k in c.pending ==> c.pending[k] == j.pending[k])
      && c == j.(pending := c.pending, next := bound, conceals := 0, floor := None,
                 stats := j.stats.(recenters := j.stats.recenters + 1,
                                   droppedInRecenter := j.stats.droppedInRecenter + |Passed(j, bound)|))
  }

  /** Past the hard cap, playout skips to the target's worth that ends at the newest. */
  ghost predicate Settles(j: Buffer, c: Buffer) {
    if |j.pending| <= j.cfg.maxTarget + j.cfg.slack then c == j
    else exists newest :: IsGreatest(newest, j.pending.Keys) && Skipped(j, c, newest - j.ad.target + 1)
  }

  lemma JoinIs(b: Buffer, p: Packet, arrival: int, pick: int)
    requires Inv(b) && b.started && Joins(b, p)
    ensures Insert(b, p, arrival, pick) == RecenterIfOvergrown(Joined(b, p, arrival))
  {
    var w := Wake(b.(stats := b.stats.(inserted := b.stats.inserted + 1)), p);
    assert !Late(w, p) && p.number !in w.pending;
    var r := Rewind(w, p);
    assert r.next == Stepped(b, p);
    assert Join(r, p, arrival, pick) == RecenterIfOvergrown(Admit(r, p, arrival));
    assert Admit(r, p, arrival) == Joined(b, p, arrival);
  }

  lemma OvergrownIs(j: Buffer, number: int)
    requires number in j.pending
    ensures Settles(j, RecenterIfOvergrown(j))
  {
    assert number in j.pending.Keys;
    if |j.pending| > j.cfg.HardCap() { SkipIs(j, Newest(j.pending.Keys) - j.ad.target + 1); }
  }

  lemma SkipIs(j: Buffer, bound: int)
    ensures Skipped(j, if bound <= j.next then j else SkipTo(j, bound), bound)
  {
    if bound > j.next {
      var c := SkipTo(j, bound);
      assert Passed(j, bound) == Below(j.pending, bound);
    }
  }

  // ----- Before playout -----------------------------------------------------

  /** Far from the compared pending number, beyond the hard cap. */
  predicate FarOff(b: Buffer, p: Packet, pick: int) {
    var cap := b.cfg.maxTarget + b.cfg.slack;
    pick in b.pending && (p.number > pick + cap || pick > p.number + cap)
  }

  /** What an unstarted buffer holds with the packet, before any trim: a packet far
      off starts over from itself. */
  function Primed(b: Buffer, p: Packet, arrival: int, pick: int): Buffer
    requires Usable(b)
  {
    var far := FarOff(b, p, pick);
    var ad := Roused(b, p);
    b.(pending := if far then map[p.number := p] else b.pending[p.number := p],
       quiet := b.quiet && !Rouses(b, p),
       next := if Rouses(b, p) && b.pending == map[] then p.number else b.next,
       ad := NoteArrival(if far then ad.(anchor := None, window := [], cursor := 0) else ad,
                         b.cfg, false, p.number, p.recovered, arrival),
       stats := b.stats.(inserted := b.stats.inserted + 1,
                         droppedInRecenter := b.stats.droppedInRecenter + if far then |b.pending| else 0))
  }

  /** The newest target's worth was kept, and the rest counted out. */
  ghost predicate Trimmed(j: Buffer, c: Buffer) {
    && (forall k :: k in c.pending ==> k in j.pending && c.pending[k] == j.pending[k])
    && |c.pending| == (if |j.pending| < j.ad.target then |j.pending| else j.ad.target)
    && (forall k, gone :: k in c.pending && gone in j.pending && gone !in c.pending ==> gone < k)
    && c == j.(pending := c.pending,
               stats := j.stats.(droppedBeforePlayout := c.stats.droppedBeforePlayout))
    && c.stats.droppedBeforePlayout + |c.pending| == j.stats.droppedBeforePlayout + |j.pending|
  }

  lemma PrimedIs(b: Buffer, p: Packet, arrival: int, pick: int)
    requires Inv(b) && !b.started && p.number !in b.pending
    ensures Insert(b, p, arrival, pick) == TrimToTarget(Primed(b, p, arrival, pick))
  {
    var w := WokenIs(b, p);
    assert Insert(b, p, arrival, pick) == Join(w, p, arrival, pick);
    FarIs(b, w, p, arrival, pick);
  }

  /** An unstarted buffer as the packet finds it. */
  lemma WokenIs(b: Buffer, p: Packet) returns (w: Buffer)
    requires Inv(b) && !b.started
    ensures w == Wake(b.(stats := b.stats.(inserted := b.stats.inserted + 1)), p)
    ensures w == b.(quiet := b.quiet && !Rouses(b, p), ad := Roused(b, p),
                    next := if Rouses(b, p) && b.pending == map[] then p.number else b.next,
                    stats := b.stats.(inserted := b.stats.inserted + 1))
  {
    w := Wake(b.(stats := b.stats.(inserted := b.stats.inserted + 1)), p);
  }

  lemma FarIs(b: Buffer, w: Buffer, p: Packet, arrival: int, pick: int)
    requires Usable(b) && !b.started && p.number !in b.pending
    requires w == b.(quiet := b.quiet && !Rouses(b, p), ad := Roused(b, p),
                     next := if Rouses(b, p) && b.pending == map[] then p.number else b.next,
                     stats := b.stats.(inserted := b.stats.inserted + 1))
    ensures Usable(w) && Join(w, p, arrival, pick) == TrimToTarget(Primed(b, p, arrival, pick))
  {
    assert Reprimes(w, p, pick) <==> FarOff(b, p, pick);
    var r := Reprime(w, p, pick);
    assert Admit(r, p, arrival) == Primed(b, p, arrival, pick);
  }

  lemma {:induction false} TrimIs(j: Buffer)
    ensures Trimmed(j, TrimToTarget(j))
    decreases |j.pending|
  {
    if |j.pending| > j.ad.target {
      assert j.pending.Keys != {};
      var oldest := Oldest(j.pending.Keys);
      var rest := j.(pending := j.pending - {oldest},
                     stats := j.stats.(droppedBeforePlayout := j.stats.droppedBeforePlayout + 1));
      assert rest.pending.Keys == j.pending.Keys - {oldest};
      TrimIs(rest);
    }
  }

  // ----- Marks --------------------------------------------------------------

  lemma InsertMarks(b: Buffer, p: Packet, arrival: int, pick: int) returns (c: Buffer)
    requires Inv(b)
    ensures c == Insert(b, p, arrival, pick)
    ensures c.quiet == (b.quiet && !Rouses(b, p))
    ensures c.conceals == if c.stats.recenters == b.stats.recenters then b.conceals else 0
    ensures c.stats.played == b.stats.played && c.stats.plc == b.stats.plc
  {
    c := Insert(b, p, arrival, pick);
    if TooLate(b, p) {
      LateIs(b, p, arrival, pick);
    } else if p.number in b.pending {
      DuplicateIs(b, p, arrival, pick);
    } else if b.started {
      JoinIs(b, p, arrival, pick);
    } else {
      PrimedIs(b, p, arrival, pick);
      TrimIs(Primed(b, p, arrival, pick));
    }
  }

  lemma PullMarks(b: Buffer, urgent: bool) returns (c: Buffer)
    requires Inv(b)
    ensures c == Pull(b, urgent).0
    ensures c.quiet == b.quiet
    ensures c.conceals == if c.stats.played != b.stats.played then 0 else b.conceals + c.stats.plc - b.stats.plc
    ensures c.stats.recenters != b.stats.recenters ==> c.stats.played != b.stats.played
  {
    c := Pull(b, urgent).0;
  }

  /** What one event does to the quiet and to the concealments in a row. */
  lemma StepMarks(h: History, e: Event)
    requires HistoryInv(h)
    ensures var b, c := h.b, Step(h, e).b;
            && c.quiet == (e.AnnouncedQuiet? || (b.quiet && !(e.Inserted? && Enabled(h, e) && Rouses(b, e.packet))))
            && c.conceals == if c.stats.played != b.stats.played || c.stats.recenters != b.stats.recenters then 0
                             else b.conceals + c.stats.plc - b.stats.plc
  {
    if Enabled(h, e) {
      match e
      case Inserted(p, arrival, pick) => var c := InsertMarks(h.b, p, arrival, pick);
      case Pulled(urgent) => var c := PullMarks(h.b, urgent);
      case AnnouncedQuiet =>
    }
  }
}
