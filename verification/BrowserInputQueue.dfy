/** Input waiting for the reliable stream: motion and scroll coalesce at the tail, edges
    never do, and the host cannot tell. A merge that leaves the finite range is not made. */
module BrowserInputQueue {
  import opened Wrappers

  const CAPACITY: nat := 256

  datatype Body =
    | MotionAbsolute(x: real, y: real)
    | MotionRelative(dx: real, dy: real)
    | Axis(dx: real, dy: real, finish: bool)
    | Key(code: int, pressed: bool)
    | Button(code: int, pressed: bool)

  datatype Entry = Entry(body: Body, captured: nat)

  predicate InRange(value: real, limit: real) {
    -limit <= value <= limit
  }

  /** Coordinates the wire can carry. */
  predicate Finite(b: Body, limit: real) {
    match b
    case MotionAbsolute(x, y) => InRange(x, limit) && InRange(y, limit)
    case MotionRelative(dx, dy) => InRange(dx, limit) && InRange(dy, limit)
    case Axis(dx, dy, _) => InRange(dx, limit) && InRange(dy, limit)
    case _ => true
  }

  /** The one event that replaces `earlier` then `later`, if there is one. */
  function Coalesce(earlier: Body, later: Body): Option<Body> {
    match (earlier, later)
    case (MotionAbsolute(_, _), MotionAbsolute(_, _)) => Some(later)
    case (MotionRelative(dx0, dy0), MotionRelative(dx1, dy1)) => Some(MotionRelative(dx0 + dx1, dy0 + dy1))
    case (Axis(dx0, dy0, false), Axis(dx1, dy1, false)) => Some(Axis(dx0 + dx1, dy0 + dy1, false))
    case _ => None
  }

  predicate Merges(queue: seq<Entry>, body: Body, limit: real) {
    queue != [] && Coalesce(queue[|queue| - 1].body, body).Some?
    && Finite(Coalesce(queue[|queue| - 1].body, body).value, limit)
  }

  /** The queue after an event, and whether it was accepted. */
  function Enqueue(queue: seq<Entry>, body: Body, captured: nat, limit: real): (seq<Entry>, bool) {
    if Merges(queue, body, limit) then
      (queue[|queue| - 1 := Entry(Coalesce(queue[|queue| - 1].body, body).value, captured)], true)
    else if |queue| >= CAPACITY then (queue, false)
    else (queue + [Entry(body, captured)], true)
  }

  // ----- What the host makes of events --------------------------------------

  /** Pointer position, relative and scroll totals. */
  datatype Motion = Motion(x: real, y: real, relX: real, relY: real, scrollX: real, scrollY: real)

  /** An edge, with everything the host knew when it came. */
  datatype Edge = Edge(body: Body, motion: Motion)

  datatype Host = Host(motion: Motion, edges: seq<Edge>)

  function Move(m: Motion, b: Body): Motion {
    match b
    case MotionAbsolute(x, y) => m.(x := x, y := y)
    case MotionRelative(dx, dy) => m.(x := m.x + dx, y := m.y + dy, relX := m.relX + dx, relY := m.relY + dy)
    case Axis(dx, dy, _) => m.(scrollX := m.scrollX + dx, scrollY := m.scrollY + dy)
    case _ => m
  }

  predicate IsEdge(b: Body) {
    b.Key? || b.Button? || (b.Axis? && b.finish)
  }

  function Feed(h: Host, b: Body): Host {
    var moved := Move(h.motion, b);
    Host(moved, if IsEdge(b) then h.edges + [Edge(b, moved)] else h.edges)
  }

  function Replay(h: Host, bodies: seq<Body>): Host
    decreases |bodies|
  {
    if bodies == [] then h else Feed(Replay(h, bodies[..|bodies| - 1]), bodies[|bodies| - 1])
  }

  /** A merged event does to the host what the two did. */
  lemma CoalescePreservesMeaning(h: Host, earlier: Body, later: Body)
    requires Coalesce(earlier, later).Some?
    ensures Feed(h, Coalesce(earlier, later).value) == Feed(Feed(h, earlier), later)
    ensures !IsEdge(earlier) && !IsEdge(later)
  {}

  // ----- Runs ---------------------------------------------------------------

  datatype Event = Offer(body: Body, captured: nat) | TakeFirst

  /** What has left the queue, what waits, and every event accepted so far. */
  datatype State = State(removed: seq<Body>, queue: seq<Entry>, accepted: seq<Body>)

  const Start := State([], [], [])

  function Step(s: State, e: Event, limit: real): State {
    match e
    case Offer(body, captured) =>
      var r := Enqueue(s.queue, body, captured, limit);
      s.(queue := r.0, accepted := if r.1 then s.accepted + [body] else s.accepted)
    case TakeFirst =>
      if s.queue == [] then s else s.(removed := s.removed + [s.queue[0].body], queue := s.queue[1..])
  }

  function Run(s: State, events: seq<Event>, limit: real): State
    decreases |events|
  {
    if events == [] then s else Run(Step(s, events[0], limit), events[1..], limit)
  }

  function Bodies(queue: seq<Entry>): (r: seq<Body>)
    ensures |r| == |queue|
  {
    if queue == [] then [] else Bodies(queue[..|queue| - 1]) + [queue[|queue| - 1].body]
  }

  lemma {:induction false} BodiesFromFront(queue: seq<Entry>)
    requires queue != []
    ensures Bodies(queue) == [queue[0].body] + Bodies(queue[1..])
  {
    var n := |queue| - 1;
    if n > 0 {
      BodiesFromFront(queue[..n]);
      assert queue[..n][1..] == queue[1..][..n - 1];
    }
  }

  predicate Agrees(s: State, h: Host) {
    |s.queue| <= CAPACITY && Replay(h, s.removed + Bodies(s.queue)) == Replay(h, s.accepted)
  }

  lemma MergeAgrees(s: State, body: Body, captured: nat, limit: real, h: Host)
    requires Agrees(s, h) && Merges(s.queue, body, limit)
    ensures Agrees(Step(s, Offer(body, captured), limit), h)
  {
    var n := |s.queue| - 1;
    var front := s.removed + Bodies(s.queue[..n]);
    var tail := s.queue[n].body;
    var merged := Coalesce(tail, body).value;
    var after := Step(s, Offer(body, captured), limit).queue;
    assert after[..n] == s.queue[..n];
    assert s.removed + Bodies(s.queue) == front + [tail];
    assert s.removed + Bodies(after) == front + [merged];
    CoalescePreservesMeaning(Replay(h, front), tail, body);
  }

  lemma AppendAgrees(s: State, body: Body, captured: nat, limit: real, h: Host)
    requires Agrees(s, h) && !Merges(s.queue, body, limit)
    ensures Agrees(Step(s, Offer(body, captured), limit), h)
  {
    var after := s.queue + [Entry(body, captured)];
    assert after[..|s.queue|] == s.queue;
    assert s.removed + Bodies(after) == (s.removed + Bodies(s.queue)) + [body];
  }

  lemma StepAgrees(s: State, e: Event, limit: real, h: Host)
    requires Agrees(s, h)
    ensures Agrees(Step(s, e, limit), h)
  {
    match e
    case Offer(body, captured) =>
      if Merges(s.queue, body, limit) {
        MergeAgrees(s, body, captured, limit, h);
      } else {
        AppendAgrees(s, body, captured, limit, h);
      }
    case TakeFirst =>
      if s.queue != [] {
        BodiesFromFront(s.queue);
        assert s.removed + [s.queue[0].body] + Bodies(s.queue[1..]) == s.removed + Bodies(s.queue);
      }
  }

  lemma {:induction false} RunAgrees(s: State, events: seq<Event>, limit: real, h: Host)
    requires Agrees(s, h)
    ensures Agrees(Run(s, events, limit), h)
    decreases |events|
  {
    if events != [] {
      StepAgrees(s, events[0], limit, h);
      RunAgrees(Step(s, events[0], limit), events[1..], limit, h);
    }
  }

  /** Coalescing preserves meaning: replaying what left the queue and then what
      waits gives the host the same edges in the same order, each at the same
      pointer position and totals, and the same motion at the end, as replaying
      every accepted event; and the queue never passes its capacity. */
  lemma CoalescingIsInvisible(events: seq<Event>, limit: real, h: Host)
    ensures var s := Run(Start, events, limit);
      Replay(h, s.removed + Bodies(s.queue)) == Replay(h, s.accepted) && |s.queue| <= CAPACITY
  {
    RunAgrees(Start, events, limit, h);
  }

  // ----- One position rather than every move --------------------------------

  /** Everything waiting can cross, and no two positions wait side by side. */
  predicate OnePosition(queue: seq<Entry>, limit: real) {
    && (forall i :: 0 <= i < |queue| ==> Finite(queue[i].body, limit))
    && (forall i :: 0 <= i < |queue| - 1 ==> !(queue[i].body.MotionAbsolute? && queue[i + 1].body.MotionAbsolute?))
  }

  /** A stall replays one position rather than every move: however many moves the
      page offers, no two wait next to each other. */
  lemma {:induction false} StallReplaysOnePosition(s: State, events: seq<Event>, limit: real)
    requires OnePosition(s.queue, limit)
    requires forall i :: 0 <= i < |events| && events[i].Offer? ==> Finite(events[i].body, limit)
    ensures OnePosition(Run(s, events, limit).queue, limit)
    decreases |events|
  {
    if events != [] {
      StallReplaysOnePosition(Step(s, events[0], limit), events[1..], limit);
    }
  }

  // ----- What one event does to the queue -----------------------------------

  /** Both move the pointer the same way, or both scroll on without a finish. */
  predicate Alike(a: Body, b: Body) {
    || (a.MotionAbsolute? && b.MotionAbsolute?)
    || (a.MotionRelative? && b.MotionRelative?)
    || (a.Axis? && b.Axis? && !a.finish && !b.finish)
  }

  /** One event in place of two alike: the later position, or the sum of the steps. */
  function Joined(a: Body, b: Body): Body
    requires Alike(a, b)
  {
    if a.MotionAbsolute? then b
    else if a.MotionRelative? then MotionRelative(a.dx + b.dx, a.dy + b.dy)
    else Axis(a.dx + b.dx, a.dy + b.dy, false)
  }

  /** The wire carries what the event joins with the last one waiting. */
  predicate JoinsTail(queue: seq<Entry>, body: Body, limit: real) {
    queue != [] && Alike(queue[|queue| - 1].body, body) &&
    var j := Joined(queue[|queue| - 1].body, body);
    if j.MotionAbsolute? then -limit <= j.x <= limit && -limit <= j.y <= limit
    else -limit <= j.dx <= limit && -limit <= j.dy <= limit
  }

  /** An event joins the last one waiting when they are alike and the wire can carry
      both in one; else it waits behind it, and only a full queue refuses it. */
  lemma EnqueueAnswers(queue: seq<Entry>, body: Body, captured: nat, limit: real)
    ensures var (after, accepted) := Enqueue(queue, body, captured, limit);
      && (accepted <==> JoinsTail(queue, body, limit) || |queue| < 256)
      && after == if JoinsTail(queue, body, limit) then
                    queue[..|queue| - 1] + [Entry(Joined(queue[|queue| - 1].body, body), captured)]
                  else if |queue| < 256 then queue + [Entry(body, captured)]
                  else queue
  {
    assert Merges(queue, body, limit) <==> JoinsTail(queue, body, limit);
  }

  // ----- The queue as it runs -----------------------------------------------

  class InputQueue {
    const limit: real
    var entries: seq<Entry>

    constructor (limit: real)
      ensures this.limit == limit && entries == []
    {
      this.limit, entries := limit, [];
    }

    method EnqueueBody(body: Body, captured: nat) returns (accepted: bool)
      modifies this`entries
      ensures (entries, accepted) == Enqueue(old(entries), body, captured, limit)
    {
      if entries != [] {
        var merged := Coalesce(entries[|entries| - 1].body, body);
        if merged.Some? && Finite(merged.value, limit) {
          entries := entries[|entries| - 1 := Entry(merged.value, captured)];
          return true;
        }
      }
      if |entries| >= CAPACITY { return false; }
      entries := entries + [Entry(body, captured)];
      return true;
    }

    method RemoveFirst()
      modifies this`entries
      ensures entries == if old(entries) == [] then [] else old(entries)[1..]
    {
      if entries != [] { entries := entries[1..]; }
    }
  }
}
