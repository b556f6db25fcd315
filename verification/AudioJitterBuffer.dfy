/** The adaptive audio playout buffer: reordering, rewinds, concealment and
    re-centering. Packet numbers are unbounded here; SerialArithmetic says when
    the wrapped comparisons of the source agree. */
module AudioJitterBuffer {
  import opened Wrappers
  import opened AudioTarget
  import opened IntSets

  datatype Packet = Packet(number: int, bytes: seq<bv8>, recovered: bool)

  datatype Verdict = Play(packet: Packet) | Conceal(number: int) | Starved

  datatype Stats = Stats(
    inserted: nat, played: nat, plc: nat, late: nat, duplicates: nat,
    recenters: nat, droppedInRecenter: nat, droppedBeforePlayout: nat, starved: nat)

  datatype Buffer = Buffer(
    cfg: Config,
    pending: map<int, Packet>,
    started: bool,
    next: int,
    lastPlayed: Option<int>,
    conceals: nat,
    quiet: bool,
    floor: Option<int>,
    ad: Adaptation,
    stats: Stats)

  function Fresh(cfg: Config, initial: nat): Buffer {
    Buffer(cfg, map[], false, 0, None, 0, false, None, AudioTarget.Fresh(initial),
           Stats(0, 0, 0, 0, 0, 0, 0, 0, 0))
  }

  /** Invariants the operations need to be defined at all. */
  ghost predicate Usable(b: Buffer) {
    b.cfg.Valid() && Sound(b.ad, b.cfg)
  }

  // ----- Insert -------------------------------------------------------------

  function NoteAnnouncedQuiet(b: Buffer): Buffer {
    b.(quiet := true, ad := ResetWindows(b.ad))
  }

  predicate Wakes(b: Buffer, p: Packet) {
    b.quiet && !p.recovered && (b.lastPlayed.Some? ==> p.number > b.lastPlayed.value)
  }

  /** The packet that ends an announced quiet re-primes an empty buffer. */
  function Wake(b: Buffer, p: Packet): Buffer {
    if !Wakes(b, p) then b
    else
      var c := b.(quiet := false, ad := b.ad.(burstEnd := Some(p.number + b.cfg.HardCap())));
      if c.pending.Keys != {} then c
      else c.(next := p.number,
              floor := if b.lastPlayed.Some? then Some(b.lastPlayed.value + 1) else None)
  }

  /** A packet behind playout that may still step it back. */
  predicate Rewinds(b: Buffer, p: Packet) {
    b.started && p.number < b.next && !p.recovered && b.floor.Some? && p.number >= b.floor.value
  }

  predicate Late(b: Buffer, p: Packet) {
    b.started && p.number < b.next && !Rewinds(b, p)
  }

  function DropLate(b: Buffer, p: Packet): Buffer
    requires Late(b, p)
  {
    b.(ad := Deepen(b.ad, b.cfg, b.next - p.number), stats := b.stats.(late := b.stats.late + 1))
  }

  function Distance(a: int, b: int): nat {
    if a < b then b - a else a - b
  }

  /** Before playout, a packet far from `pick`, one pending number the source
      happens to compare, re-primes from itself. */
  predicate Reprimes(b: Buffer, p: Packet, pick: int) {
    !b.started && pick in b.pending && Distance(p.number, pick) > b.cfg.HardCap()
  }

  function Reprime(b: Buffer, p: Packet, pick: int): Buffer {
    if !Reprimes(b, p, pick) then b
    else
      b.(pending := map[], ad := ResetWindows(b.ad),
         stats := b.stats.(droppedInRecenter := b.stats.droppedInRecenter + |b.pending|))
  }

  ghost function TrimToTarget(b: Buffer): Buffer
    decreases |b.pending|
  {
    if |b.pending| <= b.ad.target || b.pending.Keys == {} then b
    else
      var oldest := Oldest(b.pending.Keys);
      assert (b.pending - {oldest}).Keys == b.pending.Keys - {oldest};
      TrimToTarget(b.(pending := b.pending - {oldest},
                      stats := b.stats.(droppedBeforePlayout := b.stats.droppedBeforePlayout + 1)))
  }

  function Below(pending: map<int, Packet>, bound: int): set<int> {
    set k | k in pending && k < bound
  }

  /** Playout skips ahead; what it passes is dropped. */
  function SkipTo(b: Buffer, newNext: int): Buffer {
    var dropped := Below(b.pending, newNext);
    b.(pending := b.pending - dropped, next := newNext, conceals := 0, floor := None,
       stats := b.stats.(recenters := b.stats.recenters + 1,
                         droppedInRecenter := b.stats.droppedInRecenter + |dropped|))
  }

  /** Past the hard cap, everything older than the newest target's worth goes. */
  ghost function RecenterIfOvergrown(b: Buffer): Buffer {
    if |b.pending| <= b.cfg.HardCap() || b.pending.Keys == {} then b
    else
      var newNext := Newest(b.pending.Keys) - b.ad.target + 1;
      if newNext <= b.next then b else SkipTo(b, newNext)
  }

  function Admit(b: Buffer, p: Packet, arrival: int): Buffer
    requires Usable(b)
  {
    b.(ad := NoteArrival(b.ad, b.cfg, b.started, p.number, p.recovered, arrival),
       pending := b.pending[p.number := p])
  }

  /** A packet neither late nor a duplicate joins the buffer. */
  ghost function Join(b: Buffer, p: Packet, arrival: int, pick: int): Buffer
    requires Usable(b)
  {
    var admitted := Admit(Reprime(b, p, pick), p, arrival);
    if admitted.started then RecenterIfOvergrown(admitted) else TrimToTarget(admitted)
  }

  function DropDuplicate(b: Buffer): Buffer {
    b.(stats := b.stats.(duplicates := b.stats.duplicates + 1))
  }

  function Rewind(b: Buffer, p: Packet): Buffer {
    if Rewinds(b, p) then b.(next := p.number) else b
  }

  ghost function Sort(b: Buffer, p: Packet, arrival: int, pick: int): Buffer
    requires Usable(b)
  {
    if Late(b, p) then DropLate(b, p)
    else if p.number in b.pending then DropDuplicate(Rewind(b, p))
    else Join(Rewind(b, p), p, arrival, pick)
  }

  ghost function Insert(b: Buffer, p: Packet, arrival: int, pick: int): Buffer
    requires Usable(b)
  {
    Sort(Wake(b.(stats := b.stats.(inserted := b.stats.inserted + 1)), p), p, arrival, pick)
  }

  // ----- Pull ---------------------------------------------------------------

  function PlayNext(b: Buffer): (Buffer, Verdict)
    requires b.next in b.pending
  {
    (b.(pending := b.pending - {b.next}, lastPlayed := Some(b.next), next := b.next + 1,
        conceals := 0, floor := None, stats := b.stats.(played := b.stats.played + 1)),
     Play(b.pending[b.next]))
  }

  /** A new playout epoch at a pending packet, after a blackout. */
  function Resume(b: Buffer, number: int): (Buffer, Verdict)
    requires number in b.pending
  {
    (b.(pending := b.pending - {number}, lastPlayed := Some(number), next := number + 1,
        conceals := 0, floor := None,
        stats := b.stats.(played := b.stats.played + 1, recenters := b.stats.recenters + 1)),
     Play(b.pending[number]))
  }

  function Starve(b: Buffer): (Buffer, Verdict) {
    (b.(stats := b.stats.(starved := b.stats.starved + 1)), Starved)
  }

  function ConcealOrGoQuiet(b: Buffer): (Buffer, Verdict) {
    if b.conceals >= b.cfg.maxConceals then Starve(b)
    else
      (b.(conceals := b.conceals + 1, next := b.next + 1,
          stats := b.stats.(plc := b.stats.plc + 1)),
       Conceal(b.next))
  }

  /** The buffer is empty: a short stall is concealed, and the concealed slot
      may still be stepped back to. */
  function PullEmpty(b: Buffer, urgent: bool): (Buffer, Verdict) {
    if !urgent || b.quiet then Starve(b)
    else
      var (c, v) := ConcealOrGoQuiet(b);
      (if v.Conceal? && c.floor.None? then c.(floor := Some(v.number)) else c, v)
  }

  /** Material waits behind a gap at the head. */
  function PullGap(b: Buffer, oldest: int, urgent: bool): (Buffer, Verdict)
    requires oldest in b.pending
  {
    if oldest - b.next >= b.cfg.recenterJump then Resume(b, oldest)
    else if !urgent then Starve(b)
    else if b.conceals >= b.cfg.maxConceals then Resume(b, oldest)
    else ConcealOrGoQuiet(b.(floor := None))
  }

  ghost function Pull(b: Buffer, urgent: bool): (Buffer, Verdict) {
    if !b.started && (|b.pending| < b.ad.target || b.pending.Keys == {}) then (b, Starved)
    else
      var s := if b.started then b else b.(started := true, next := Oldest(b.pending.Keys));
      if s.next in s.pending then PlayNext(s)
      else if s.pending.Keys == {} then PullEmpty(s, urgent)
      else PullGap(s, Oldest(s.pending.Keys), urgent)
  }
}
