/** The lock-free ring as interleaved steps of its two threads: the pump looks
    at a possibly stale depth, copies slots and publishes; the render callback
    takes a possibly stale write count, copies slots and publishes. */
module AudioRingProtocol {
  import A = AudioAccelerator
  import opened Wrappers

  const CAPACITY: nat := 48_000
  const PACKET: nat := 240
  const GATHER: nat := 960
  const MAX_TARGET: nat := 20

  /** The pull rule: pull below the target while one more packet fits. */
  predicate MayFill(pipeline: int, targetPackets: nat) {
    pipeline < (if targetPackets < 1 then 1 else targetPackets) * PACKET
    && pipeline + PACKET <= CAPACITY
  }

  datatype Pump<S> =
    | Idle
    | Looked(depth: int)                     // the depth it believes
    | Copying(out: seq<S>, done: nat)        // slots copied, not yet published

  datatype Render<S> =
    | Waiting
    | Taking(available: nat, got: seq<S>)    // samples copied so far

  /** Shared memory, both threads, and the whole history of either side. */
  datatype Ring<S> = Ring(
    slots: map<int, S>,
    readCounter: nat, writeCounter: nat,
    pump: Pump<S>, render: Render<S>,
    written: seq<S>, rendered: seq<S>)

  datatype Event<S> =
    | PumpLooks(staleRead: nat)
    | PumpFlushes(out: seq<S>)               // the accelerator's gather, uncompressed
    | PumpFills(target: nat, out: seq<S>)    // what one decoded packet lets out
    | PumpRests
    | PumpCopies
    | PumpPublishes
    | RenderStarts(wanted: nat, staleWrite: nat)
    | RenderCopies
    | RenderPublishes

  function Slot(frame: nat): int {
    frame % CAPACITY
  }

  /** Loads may return any earlier value of the other side's counter. A flush
      needs a nearly dry ring and hands out less than one gather; a fill needs
      the pull rule under a target within its bound, and hands out at most the
      gather and one packet. */
  predicate Enabled<S>(r: Ring<S>, e: Event<S>) {
    match e
    case PumpLooks(staleRead) => !r.pump.Copying? && staleRead <= r.readCounter
    case PumpFlushes(out) => r.pump.Looked? && r.pump.depth < PACKET && |out| < GATHER
    case PumpFills(target, out) =>
      r.pump.Looked? && target <= MAX_TARGET && MayFill(r.pump.depth, target) && |out| < GATHER + PACKET
    case PumpRests => r.pump.Looked?
    case PumpCopies => r.pump.Copying? && r.pump.done < |r.pump.out|
    case PumpPublishes => r.pump.Copying? && r.pump.done == |r.pump.out|
    case RenderStarts(wanted, staleWrite) =>
      r.render.Waiting? && r.readCounter <= staleWrite <= r.writeCounter
    case RenderCopies =>
      && r.render.Taking? && |r.render.got| < r.render.available
      && Slot(r.readCounter + |r.render.got|) in r.slots
    case RenderPublishes => r.render.Taking? && |r.render.got| == r.render.available
  }

  function Step<S>(r: Ring<S>, e: Event<S>): Ring<S> {
    if !Enabled(r, e) then r
    else
      match e
      case PumpLooks(staleRead) => r.(pump := Looked(r.writeCounter - staleRead))
      case PumpFlushes(out) => r.(pump := Copying(out, 0))
      case PumpFills(_, out) => r.(pump := Copying(out, 0))
      case PumpRests => r.(pump := Idle)
      case PumpCopies =>
        var k := r.pump.done;
        r.(slots := r.slots[Slot(r.writeCounter + k) := r.pump.out[k]],
           pump := r.pump.(done := k + 1))
      case PumpPublishes =>
        r.(writeCounter := r.writeCounter + |r.pump.out|, pump := Idle,
           written := r.written + r.pump.out)
      case RenderStarts(wanted, staleWrite) =>
        var have := staleWrite - r.readCounter;
        r.(render := Taking(if wanted < have then wanted else have, []))
      case RenderCopies =>
        var slot := Slot(r.readCounter + |r.render.got|);
        r.(render := r.render.(got := r.render.got + [r.slots[slot]]))
      case RenderPublishes =>
        r.(readCounter := r.readCounter + r.render.available, render := Waiting,
           rendered := r.rendered + r.render.got)
  }

  function Start<S>(): Ring<S> {
    Ring(map[], 0, 0, Idle, Waiting, [], [])
  }

  function Run<S>(es: seq<Event<S>>): Ring<S> {
    if es == [] then Start() else Step(Run(es[..|es| - 1]), es[|es| - 1])
  }

  // ----- The invariant ------------------------------------------------------

  /** The deepest the ring ever gets, frames in flight included. */
  const DEEPEST: nat := MAX_TARGET * PACKET + GATHER + PACKET

  /** All frames written, the batch being copied included. */
  function Stream<S>(r: Ring<S>): seq<S> {
    if r.pump.Copying? then r.written + r.pump.out[..Copied(r)] else r.written
  }

  function Copied<S>(r: Ring<S>): nat {
    if r.pump.Copying? then (if r.pump.done < |r.pump.out| then r.pump.done else |r.pump.out|) else 0
  }

  ghost predicate Counted<S>(r: Ring<S>) {
    && |r.written| == r.writeCounter && |r.rendered| == r.readCounter
    && r.readCounter <= r.writeCounter
    && (r.pump.Looked? ==> r.pump.depth >= r.writeCounter - r.readCounter)
    && (r.pump.Copying? ==> r.pump.done <= |r.pump.out|)
    && (r.render.Taking? ==>
          |r.render.got| <= r.render.available && r.readCounter + r.render.available <= r.writeCounter)
  }

  /** Frames not yet released by the render side, those being copied included. */
  function Depth<S>(r: Ring<S>): int {
    r.writeCounter - r.readCounter + (if r.pump.Copying? then |r.pump.out| else 0)
  }

  /** Every frame the render side may still read sits in its slot. */
  ghost predicate Stored<S>(r: Ring<S>) {
    forall i :: r.readCounter <= i < |Stream(r)| ==>
      Slot(i) in r.slots && r.slots[Slot(i)] == Stream(r)[i]
  }

  ghost predicate InOrder<S>(r: Ring<S>)
    requires Counted(r)
  {
    && r.rendered == r.written[..r.readCounter]
    && (r.render.Taking? ==>
          r.render.got == r.written[r.readCounter..r.readCounter + |r.render.got|])
  }

  ghost predicate Inv<S>(r: Ring<S>) {
    Counted(r) && Depth(r) < DEEPEST && Stored(r) && InOrder(r)
  }

  // ----- Steps --------------------------------------------------------------

  /** The batch sizes the pump's events allow are the accelerator's own bounds:
      a flush is less than one gather, and one decode, which hands out a packet of
      silence when it fails, lets out less than a gather and a packet. */
  lemma PumpBatchBounds(
    a: A.Accelerator, pcm: seq<A.Frame>, accelerate: bool, best: Option<A.Best>, ramp: A.Ramp)
    requires A.Inv(a) && a.cfg == A.DEFAULT && |pcm| <= PACKET
    requires A.InRange(a.cfg, |a.pending + pcm|, best)
    ensures |A.EmitAll(a).1| < GATHER
    ensures |A.Process(a, pcm, accelerate, best, ramp).1| < GATHER + PACKET
    ensures A.Inv(A.Process(a, pcm, accelerate, best, ramp).0)
  {
    A.ProcessKeeps(a, pcm, accelerate, best, ramp);
  }

  /** Two frames less than a capacity apart never share a slot. */
  lemma SlotsDiffer(i: nat, j: nat)
    requires i < j < i + CAPACITY
    ensures Slot(i) != Slot(j)
  {
  }

  /** A look only ever overestimates, so a batch the guard lets through fits
      with room to spare. */
  lemma GuardedBatchFits<S>(r: Ring<S>, out: seq<S>)
    requires Counted(r) && r.pump.Looked? && Depth(r) < DEEPEST
    requires (r.pump.depth < PACKET && |out| < GATHER)
          || (exists target: nat :: target <= MAX_TARGET && MayFill(r.pump.depth, target)
                                    && |out| < GATHER + PACKET)
    ensures r.writeCounter - r.readCounter + |out| < DEEPEST
  {
  }

  lemma CopyKeepsStored<S>(r: Ring<S>)
    requires Inv(r) && Enabled(r, PumpCopies)
    ensures Stored(Step(r, PumpCopies))
  {
    var t := Step(r, PumpCopies);
    var k := r.pump.done;
    var at := r.writeCounter + k;
    assert t.pump.out[..k + 1] == r.pump.out[..k] + [r.pump.out[k]];
    assert Stream(t) == Stream(r) + [r.pump.out[k]];
    forall i | t.readCounter <= i < |Stream(t)|
      ensures Slot(i) in t.slots && t.slots[Slot(i)] == Stream(t)[i]
    {
      if i < at {
        assert at < i + CAPACITY;
        SlotsDiffer(i, at);
      }
    }
  }

  lemma PublishKeeps<S>(r: Ring<S>)
    requires Inv(r) && Enabled(r, PumpPublishes)
    ensures Inv(Step(r, PumpPublishes))
  {
    var t := Step(r, PumpPublishes);
    assert r.pump.out[..|r.pump.out|] == r.pump.out;
    assert Stream(t) == Stream(r);
    assert t.written[..r.readCounter] == r.written[..r.readCounter];
    if r.render.Taking? {
      var hi := r.readCounter + |r.render.got|;
      assert t.written[r.readCounter..hi] == r.written[r.readCounter..hi];
    }
  }

  lemma RenderCopyKeeps<S>(r: Ring<S>)
    requires Inv(r) && Enabled(r, RenderCopies)
    ensures Inv(Step(r, RenderCopies))
  {
    var t := Step(r, RenderCopies);
    var at := r.readCounter + |r.render.got|;
    assert at < r.writeCounter && Stream(r)[at] == r.written[at];
    assert r.written[r.readCounter..at + 1] == r.written[r.readCounter..at] + [r.written[at]];
    assert Stream(t) == Stream(r);
  }

  lemma RenderPublishKeeps<S>(r: Ring<S>)
    requires Inv(r) && Enabled(r, RenderPublishes)
    ensures Inv(Step(r, RenderPublishes))
  {
    var t := Step(r, RenderPublishes);
    var hi := r.readCounter + r.render.available;
    assert r.written[..hi] == r.written[..r.readCounter] + r.written[r.readCounter..hi];
    assert Stream(t) == Stream(r);
  }

  lemma BatchKeeps<S>(r: Ring<S>, out: seq<S>)
    requires Inv(r) && r.pump.Looked? && r.writeCounter - r.readCounter + |out| < DEEPEST
    ensures Inv(r.(pump := Copying(out, 0)))
  {
    var t := r.(pump := Copying(out, 0));
    assert Stream(t) == Stream(r);
  }

  lemma StepKeeps<S>(r: Ring<S>, e: Event<S>)
    requires Inv(r)
    ensures Inv(Step(r, e))
  {
    if Enabled(r, e) {
      match e
      case PumpLooks(staleRead) => assert Stream(Step(r, e)) == Stream(r);
      case PumpFlushes(out) => GuardedBatchFits(r, out); BatchKeeps(r, out);
      case PumpFills(target, out) => GuardedBatchFits(r, out); BatchKeeps(r, out);
      case PumpRests => assert Stream(Step(r, e)) == Stream(r);
      case PumpCopies => CopyKeepsStored(r);
      case PumpPublishes => PublishKeeps(r);
      case RenderStarts(_, _) => assert Stream(Step(r, e)) == Stream(r);
      case RenderCopies => RenderCopyKeeps(r);
      case RenderPublishes => RenderPublishKeeps(r);
    }
  }

  lemma {:induction false} RunKeeps<S>(es: seq<Event<S>>)
    ensures Inv(Run(es))
  {
    if es != [] {
      RunKeeps(es[..|es| - 1]);
      StepKeeps(Run(es[..|es| - 1]), es[|es| - 1]);
    }
  }

  /** Under every interleaving and every stale load: what the render side has
      copied is exactly the written stream's beginning, in order; no slot is
      overwritten before it was released; and the depth stays far below the
      capacity. */
  lemma RingIsSafe<S>(es: seq<Event<S>>)
    ensures var r := Run(es);
            && r.rendered <= r.written
            && (r.render.Taking? ==> r.rendered + r.render.got <= r.written)
            && r.writeCounter - r.readCounter < DEEPEST < CAPACITY
  {
    RunKeeps(es);
    var r := Run(es);
    if r.render.Taking? {
      var hi := r.readCounter + |r.render.got|;
      assert r.written[..hi] == r.rendered + r.render.got;
    }
  }

  /** The render side is never stuck on a slot nobody wrote. */
  lemma RenderNeverStuck<S>(es: seq<Event<S>>)
    ensures var r := Run(es);
            r.render.Taking? && |r.render.got| < r.render.available ==> Enabled(r, RenderCopies)
  {
    RunKeeps(es);
    var r := Run(es);
    if r.render.Taking? && |r.render.got| < r.render.available {
      var at := r.readCounter + |r.render.got|;
      assert r.readCounter <= at < |Stream(r)|;
    }
  }
}
