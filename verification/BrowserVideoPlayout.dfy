/** The browser's decode backlog and presentation queue: the abstract value of
    the player and what each of its operations does to it. */
module BrowserVideoPlayout {
  import opened Wrappers
  import opened RendererHandoff
  import ClientIdrRecovery

  const CAPACITY: nat := 120
  const HANDOFF_CAPACITY: nat := 12
  const HANDOFF_DEADLINE: nat := 0x3FFF_FFFF_FFFF_FFFF

  type Bytes = seq<bv8>

  /** One assembled frame. */
  datatype DecodeUnit = DecodeUnit(frame: nat, isRandomAccess: bool, annexB: Bytes)

  /** What the beat policy decided for a frame. */
  datatype Beat = Beat(presentation: nat, lateness: nat, shouldFlush: bool)

  datatype Scheduled = Scheduled(frame: nat, presentation: nat, isRandomAccess: bool, shouldPresent: bool)

  datatype Stored = Stored(annexB: Bytes, isRandomAccess: bool)

  /** The player. `lost` records what the bounded abandoned ring overwrote. */
  datatype Playout = Playout(
    annexB: map<nat, Stored>,
    decodeOrder: seq<nat>,
    scheduled: map<nat, Scheduled>,
    early: Option<Scheduled>,
    abandoned: seq<nat>,
    lost: seq<nat>,
    handoff: Handoff,
    recovery: ClientIdrRecovery.Recovery,
    evicted: nat,
    undecodable: nat)

  function Fresh(): Playout {
    Playout(map[], [], map[], None, [], [],
            Handoff(HANDOFF_CAPACITY, HANDOFF_DEADLINE, [], false, false),
            ClientIdrRecovery.Fresh(500_000), 0, 0)
  }

  // ----- Decode -------------------------------------------------------------

  function Demand(p: Playout, frame: nat): Playout {
    p.(recovery := p.recovery.RecordDemand(frame))
  }

  /** The backlog without the live frames ahead of the next random-access one. */
  function DropDependents(order: seq<nat>, backlog: map<nat, Stored>): map<nat, Stored> {
    if order == [] then backlog
    else if order[0] !in backlog then DropDependents(order[1..], backlog)
    else if backlog[order[0]].isRandomAccess then backlog
    else DropDependents(order[1..], backlog - {order[0]})
  }

  lemma {:induction false} DropDependentsShrinks(order: seq<nat>, backlog: map<nat, Stored>)
    ensures |DropDependents(order, backlog)| <= |backlog|
    ensures DropDependents(order, backlog).Keys <= backlog.Keys
    ensures forall f :: f in DropDependents(order, backlog) ==>
              DropDependents(order, backlog)[f] == backlog[f]
  {
    if order == [] || (order[0] in backlog && backlog[order[0]].isRandomAccess) {
    } else if order[0] !in backlog {
      DropDependentsShrinks(order[1..], backlog);
    } else {
      DropDependentsShrinks(order[1..], backlog - {order[0]});
      assert (backlog - {order[0]}).Keys == backlog.Keys - {order[0]};
    }
  }

  /** One eviction: the oldest log entry goes, and if it was still queued its
      dependents go with it and a recovery is demanded. */
  function EvictOldest(p: Playout): Playout
    requires p.decodeOrder != []
  {
    var oldest := p.decodeOrder[0];
    var q := p.(decodeOrder := p.decodeOrder[1..]);
    if oldest !in p.annexB then q
    else
      var rest := p.annexB - {oldest};
      var kept := DropDependents(q.decodeOrder, rest);
      DropDependentsShrinks(q.decodeOrder, rest);
      Demand(q.(annexB := kept, evicted := q.evicted + 1,
                undecodable := q.undecodable + (|rest| - |kept|)), oldest)
  }

  function EvictPastBound(p: Playout): Playout
    decreases |p.decodeOrder|
  {
    if |p.annexB| > CAPACITY && p.decodeOrder != [] then EvictPastBound(EvictOldest(p)) else p
  }

  function Live(order: seq<nat>, backlog: map<nat, Stored>): seq<nat> {
    if order == [] then []
    else if order[0] in backlog then [order[0]] + Live(order[1..], backlog)
    else Live(order[1..], backlog)
  }

  function Compact(p: Playout): Playout {
    if |p.decodeOrder| > 4 * CAPACITY then p.(decodeOrder := Live(p.decodeOrder, p.annexB)) else p
  }

  function StoreForDecode(p: Playout, unit: DecodeUnit): Playout {
    Compact(EvictPastBound(
      p.(annexB := p.annexB[unit.frame := Stored(unit.annexB, unit.isRandomAccess)],
         decodeOrder := p.decodeOrder + [unit.frame])))
  }

  function TakeAnnexB(p: Playout, frame: nat): (Playout, Option<Bytes>) {
    if frame in p.annexB then (p.(annexB := p.annexB - {frame}), Some(p.annexB[frame].annexB))
    else (p, None)
  }

  // ----- Presentation -------------------------------------------------------

  /** Appends to the abandoned ring, which overwrites its oldest when full. */
  function Abandon(p: Playout, frame: nat): Playout {
    if |p.abandoned| < CAPACITY then p.(abandoned := p.abandoned + [frame])
    else p.(abandoned := p.abandoned[1..] + [frame], lost := p.lost + [p.abandoned[0]])
  }

  function AbandonEarly(p: Playout): Playout {
    if p.early.None? then p else Abandon(p.(early := None), p.early.value.frame)
  }

  /** A discarded entry loses its presentation; a promised one is abandoned. */
  function Discard(p: Playout, frame: nat): Playout {
    var q :=
      if frame !in p.scheduled then p
      else
        var r := p.(scheduled := p.scheduled - {frame});
        if p.scheduled[frame].shouldPresent then Abandon(r, frame) else r;
    if q.early.Some? && q.early.value.frame == frame then AbandonEarly(q) else q
  }

  function DiscardAll(p: Playout, discarded: seq<Entry>): Playout
    decreases |discarded|
  {
    if discarded == [] then p
    else DiscardAll(Discard(p, discarded[0].frame), discarded[1..])
  }

  function NewestFrame(entries: seq<Entry>): Option<nat> {
    if entries == [] then None
    else
      var rest := NewestFrame(entries[1..]);
      if rest.Some? && rest.value > entries[0].frame then rest else Some(entries[0].frame)
  }

  function Absorb(p: Playout, o: Outcome, newest: Option<nat>): Playout {
    var q := DiscardAll(p, o.discarded);
    var damaged := if newest.Some? then newest else NewestFrame(o.discarded);
    if o.recoveryRequested && damaged.Some? then Demand(q, damaged.value) else q
  }

  /** The flush the beat policy asked for: the queue fails as one episode. */
  function Flush(p: Playout, frame: nat): Playout {
    var q := AbandonEarly(p);
    var (h, o) := q.handoff.FailEpisode();
    Absorb(q.(handoff := h), o, Some(frame))
  }

  /** The offer to the handoff, and what the page is told about the frame. */
  function OfferFrame(p: Playout, frame: Scheduled, arrival: nat): (Playout, Scheduled) {
    var (h, o) := p.handoff.Offer(Entry(frame.frame, frame.isRandomAccess, arrival));
    var told := if o.accepted then frame else frame.(shouldPresent := false);
    var q := p.(handoff := h,
                scheduled := if o.accepted then p.scheduled[frame.frame := frame] else p.scheduled);
    (Absorb(q, o, Some(frame.frame)), told)
  }

  function CloseIfRandomAccess(p: Playout, isRandomAccess: bool): Playout {
    if isRandomAccess then p.(recovery := p.recovery.NoteUsableIrapAccepted()) else p
  }

  function Schedule(p: Playout, unit: DecodeUnit, beat: Beat, arrival: nat): (Playout, Scheduled) {
    var admitted := p.recovery.Admits(unit.isRandomAccess);
    var frame := Scheduled(unit.frame, beat.presentation, unit.isRandomAccess,
                           admitted && beat.lateness == 0);
    if !admitted then (p.(undecodable := p.undecodable + 1), frame)
    else
      var stored := StoreForDecode(p, unit);
      var flushed := if beat.shouldFlush then Flush(stored, unit.frame) else stored;
      OfferFrame(CloseIfRandomAccess(flushed, unit.isRandomAccess), frame, arrival)
  }

  function Expire(p: Playout, now: nat): Playout {
    var (h, o) := p.handoff.Expire(now);
    Absorb(p.(handoff := h), o, None)
  }

  function NoteHandedOff(p: Playout, isRandomAccess: bool): Playout {
    if isRandomAccess then p.(handoff := p.handoff.NoteRandomAccessEnqueued()) else p
  }

  function PopQueued(p: Playout, now: nat): (Playout, Option<Scheduled>)
    decreases |p.handoff.entries|
  {
    if p.handoff.entries == [] then (p, None)
    else
      var frame := p.handoff.entries[0].frame;
      var q := p.(handoff := p.handoff.(entries := p.handoff.entries[1..]));
      if frame !in q.scheduled then PopQueued(q, now)
      else
        var entry := q.scheduled[frame];
        var r := q.(scheduled := q.scheduled - {frame});
        if !entry.shouldPresent then PopQueued(NoteHandedOff(r, entry.isRandomAccess), now)
        else if now < entry.presentation then (r.(early := Some(entry)), None)
        else (NoteHandedOff(r, entry.isRandomAccess), Some(entry))
  }

  function PopDue(p: Playout, now: nat): (Playout, Option<Scheduled>) {
    match p.early
    case Some(entry) =>
      if now < entry.presentation then (p, None)
      else (NoteHandedOff(p.(early := None), entry.isRandomAccess), Some(entry))
    case None => PopQueued(p, now)
  }

  function TakeAbandoned(p: Playout): (Playout, seq<nat>) {
    (p.(abandoned := []), p.abandoned)
  }

  function NoteDropped(p: Playout, frame: nat): Playout {
    p.(annexB := p.annexB - {frame}, scheduled := p.scheduled - {frame},
       early := if p.early.Some? && p.early.value.frame == frame then None else p.early)
  }
}
