/** Whole runs of the video player: the assembler feeds it, the page takes,
    drops, pops and drains, in any interleaving. */
module BrowserVideoRuns {
  import opened Wrappers
  import opened BrowserVideoPlayout

  /** How a promised frame left the player for good. */
  datatype Fate = Popped | Reported | DroppedByPage

  /** The player with its surroundings: the frame number the assembler will
      account for next, the first frame assembled, every unit assembled, the
      page's queue of scheduled frames, the frames and bytes handed out
      for decode in order, the frames the page was told to present, and where
      each promise ended. `removed` counts queued frames the page dropped. */
  datatype System = System(
    p: Playout,
    expected: Option<nat>, first: Option<nat>, units: map<nat, DecodeUnit>,
    queue: seq<nat>, handed: seq<(nat, Bytes)>, removed: nat,
    promised: set<nat>, settled: map<nat, Fate>)

  datatype Event =
    | Assembled(unit: DecodeUnit, beat: Beat, arrival: nat)
    | Skipped(through: nat)          // frames up to `through` will never come
    | Demanded(frame: nat)           // fec-impossible, abandoned repair, refusal
    | BeatAt(now: nat)               // the handoff's own expiry
    | PageTakes                      // the page's next frame, in order
    | PageDropsBefore(index: nat)    // a queue prefix ahead of a queued keyframe
    | PagePops(now: nat)
    | PageDrains

  const Start := System(Fresh(), None, None, map[], [], [], 0, {}, map[])

  /** Frames come in order, a skip before any gap; the page works its queue
      from the front. Anything else cannot happen. */
  predicate Enabled(s: System, e: Event) {
    match e
    case Assembled(unit, _, _) => s.expected.Some? ==> unit.frame == s.expected.value
    case Skipped(through) => s.expected.Some? ==> s.expected.value <= through
    case PageTakes => s.queue != []
    case PageDropsBefore(index) => index < |s.queue| && s.queue[index] in s.units
                                  && s.units[s.queue[index]].isRandomAccess
    case _ => true
  }

  function Settle(m: map<nat, Fate>, frames: seq<nat>, fate: Fate): map<nat, Fate> {
    m + (map f | f in frames :: fate)
  }

  predicate Awaits(p: Playout, frame: nat) {
    || (frame in p.scheduled && p.scheduled[frame].shouldPresent)
    || (p.early.Some? && p.early.value.frame == frame)
  }

  function DropOne(s: System, frame: nat): System {
    s.(p := NoteDropped(s.p, frame),
       removed := s.removed + Count(frame in s.p.annexB),
       settled := if Awaits(s.p, frame) then s.settled[frame := DroppedByPage] else s.settled)
  }

  function DropEach(s: System, frames: seq<nat>): System
    decreases |frames|
  {
    if frames == [] then s else DropEach(DropOne(s, frames[0]), frames[1..])
  }

  function Assemble(s: System, unit: DecodeUnit, beat: Beat, arrival: nat): System {
    var (p, told) := Schedule(s.p, unit, beat, arrival);
    s.(p := p,
       expected := Some(unit.frame + 1),
       first := if s.first.Some? then s.first else Some(unit.frame),
       units := s.units[unit.frame := unit],
       queue := s.queue + [unit.frame],
       promised := if told.shouldPresent then s.promised + {unit.frame} else s.promised)
  }

  function Take(s: System): System
    requires s.queue != []
  {
    var frame := s.queue[0];
    var rest := s.(queue := s.queue[1..]);
    var (p, bytes) := TakeAnnexB(s.p, frame);
    if bytes.Some? then rest.(p := p, handed := s.handed + [(frame, bytes.value)]) else DropOne(rest, frame)
  }

  function Pop(s: System, now: nat): System {
    var (p, due) := PopDue(s.p, now);
    s.(p := p,
       settled := if due.Some? then s.settled[due.value.frame := Popped] else s.settled)
  }

  function Drain(s: System): System {
    var (p, frames) := TakeAbandoned(s.p);
    s.(p := p, settled := Settle(s.settled, frames, Reported))
  }

  function Step(s: System, e: Event): System {
    if !Enabled(s, e) then s
    else
      match e
      case Assembled(unit, beat, arrival) => Assemble(s, unit, beat, arrival)
      case Skipped(through) => s.(p := Demand(s.p, through), expected := Some(through + 1))
      case Demanded(frame) => s.(p := Demand(s.p, frame))
      case BeatAt(now) => s.(p := Expire(s.p, now))
      case PageTakes => Take(s)
      case PageDropsBefore(index) => DropEach(s.(queue := s.queue[index..]), s.queue[..index])
      case PagePops(now) => Pop(s, now)
      case PageDrains => Drain(s)
  }

  function Run(es: seq<Event>): System {
    if es == [] then Start else Step(Run(es[..|es| - 1]), es[|es| - 1])
  }
}
