/** The PCM ring's own loops and the declick across its underruns, one channel: the
    channels share the counters and are otherwise independent. */
module AudioPcmRing {
  const CAPACITY: nat := 48_000
  const FADE: nat := 96

  // ----- Declick ------------------------------------------------------------

  datatype Declick = Declick(
    tailBase: real, resumeBase: real, lastOut: real,
    tailDone: nat, fadeInLeft: nat, starving: bool)

  const Silent := Declick(0.0, 0.0, 0.0, 0, 0, false)

  /** What is left of `base` after `done` frames of linear decay. */
  function Level(base: real, done: nat): real {
    if done >= FADE then 0.0 else base * (FADE - done) as real / FADE as real
  }

  /** The weight of the real sample at step k of the crossfade back in. */
  function Gain(k: int): real {
    (k + 1) as real / FADE as real
  }

  /** Real sample `frame` of a call, crossfaded while fade-in frames are owed. */
  function Faded(sample: real, resume: real, fadeInLeft: nat, frame: nat): real {
    if frame < fadeInLeft <= FADE then
      var k := FADE - fadeInLeft + frame;
      sample * Gain(k) + resume * (1.0 - Gain(k))
    else sample
  }

  function Resume(d: Declick, starves: bool): real {
    if !starves && d.starving then Level(d.tailBase, d.tailDone) else d.resumeBase
  }

  function RealPart(d: Declick, got: seq<real>, starves: bool): seq<real> {
    seq(|got|, i requires 0 <= i < |got| => Faded(got[i], Resume(d, starves), d.fadeInLeft, i))
  }

  function Base(d: Declick, real_: seq<real>): real {
    if d.starving then d.tailBase
    else if real_ != [] then real_[|real_| - 1] else d.lastOut
  }

  function TailStart(d: Declick): nat {
    if d.starving then d.tailDone else 0
  }

  function Tail(base: real, start: nat, count: nat): seq<real> {
    seq(count, i requires 0 <= i < count => Level(base, start + i + 1))
  }

  function Output(d: Declick, got: seq<real>, wanted: nat): seq<real>
    requires |got| <= wanted
  {
    var starves := |got| < wanted;
    var front := RealPart(d, got, starves);
    if starves then front + Tail(Base(d, front), TailStart(d), wanted - |got|) else front
  }

  function After(d: Declick, got: seq<real>, wanted: nat): Declick
    requires |got| <= wanted
  {
    var starves := |got| < wanted;
    var out := Output(d, got, wanted);
    var last := if wanted > 0 then out[wanted - 1] else d.lastOut;
    if starves then
      Declick(Base(d, RealPart(d, got, starves)), d.resumeBase, last,
              TailStart(d) + wanted - |got|, FADE, true)
    else
      Declick(d.tailBase, Resume(d, starves), last, d.tailDone,
              if d.fadeInLeft < |got| then 0 else d.fadeInLeft - |got|, false)
  }

  /** In an episode the last sample out is where the decay stands. */
  ghost predicate Settled(d: Declick) {
    && d.fadeInLeft <= FADE
    && (d.starving ==> d.tailDone > 0 && d.fadeInLeft == FADE && d.lastOut == Level(d.tailBase, d.tailDone))
  }

  lemma CallSettles(d: Declick, got: seq<real>, wanted: nat)
    requires Settled(d) && |got| <= wanted
    ensures Settled(After(d, got, wanted))
    ensures |Output(d, got, wanted)| == wanted
  {
  }

  /** Each step of the decay is the same 96th of its start, down to true zero. */
  lemma LevelSteps(base: real, done: nat)
    ensures Level(base, done) - Level(base, done + 1) == (if done < FADE then base / FADE as real else 0.0)
    ensures Level(base, 0) == base
  {
  }

  // ----- One call is seamless -----------------------------------------------

  /** Sample k of a crossfade from a held level into the real stream; past the
      fade the real sample itself. */
  function FadedIn(sample: real, from: real, k: nat): real {
    if k < FADE then sample * Gain(k) + from * (1.0 - Gain(k)) else sample
  }

  /** Real samples that end a silence fade in from the last sample out. */
  ghost predicate EntersSmoothly(d: Declick, got: seq<real>, wanted: nat)
    requires |got| <= wanted
  {
    d.starving ==>
      forall i :: 0 <= i < |got| ==> Output(d, got, wanted)[i] == FadedIn(got[i], d.lastOut, i)
  }

  /** Padding falls linearly to true zero through the sample before it: that
      sample stands on the decay the padding goes on with, the episode's own in
      an episode and its own otherwise. */
  ghost predicate PadsSmoothly(d: Declick, got: seq<real>, wanted: nat)
    requires |got| <= wanted
  {
    |got| < wanted ==>
      var out := Output(d, got, wanted);
      var before := if got != [] then out[|got| - 1] else d.lastOut;
      var base := if d.starving then d.tailBase else before;
      && before == Level(base, TailStart(d))
      && forall i :: |got| <= i < wanted ==> out[i] == Level(base, TailStart(d) + i - |got| + 1)
  }

  ghost predicate Seamless(d: Declick, got: seq<real>, wanted: nat)
    requires |got| <= wanted
  {
    EntersSmoothly(d, got, wanted) && PadsSmoothly(d, got, wanted)
  }

  /** A call that is served in part while an episode goes on. */
  predicate Trickles(starving: bool, count: nat, wanted: nat) {
    starving && 0 < count < wanted
  }

  lemma PartsAt(d: Declick, got: seq<real>, wanted: nat, i: nat)
    requires Settled(d) && |got| <= wanted && i < wanted
    ensures |Output(d, got, wanted)| == wanted
    ensures i < |got| ==>
      Output(d, got, wanted)[i] == Faded(got[i], Resume(d, |got| < wanted), d.fadeInLeft, i)
    ensures i >= |got| ==>
      Output(d, got, wanted)[i]
      == Level(Base(d, RealPart(d, got, true)), TailStart(d) + i - |got| + 1)
  {}

  /** Every other call is seamless, whatever the samples are. */
  lemma UntrickledIsSeamless(d: Declick, got: seq<real>, wanted: nat)
    requires Settled(d) && |got| <= wanted && !Trickles(d.starving, |got|, wanted)
    ensures Seamless(d, got, wanted)
  {
    forall i | 0 <= i < wanted
      ensures i < |got| ==>
        Output(d, got, wanted)[i] == Faded(got[i], Resume(d, |got| < wanted), d.fadeInLeft, i)
      ensures i >= |got| ==>
        Output(d, got, wanted)[i] == Level(Base(d, RealPart(d, got, true)), TailStart(d) + i - |got| + 1)
    {
      PartsAt(d, got, wanted, i);
    }
  }

  /** What a trickling call must meet by luck: its stale crossfade level is the
      last sample out, and its last sample lands on the old decay. */
  lemma TrickleSeamlessIff(d: Declick, got: seq<real>, wanted: nat)
    requires Settled(d) && |got| <= wanted && Trickles(d.starving, |got|, wanted)
    ensures Seamless(d, got, wanted) <==>
      d.resumeBase == d.lastOut && FadedIn(got[|got| - 1], d.resumeBase, |got| - 1) == d.lastOut
  {
    forall i | 0 <= i < wanted
      ensures i < |got| ==> Output(d, got, wanted)[i] == FadedIn(got[i], d.resumeBase, i)
      ensures i >= |got| ==> Output(d, got, wanted)[i] == Level(d.tailBase, d.tailDone + i - |got| + 1)
    {
      PartsAt(d, got, wanted, i);
    }
    if EntersSmoothly(d, got, wanted) {
      assert FadedIn(got[0], d.resumeBase, 0) == FadedIn(got[0], d.lastOut, 0);
    }
  }

  /** Samples, inside the range of the last one out, that a trickling call cannot
      play without a step. */
  function Jolt(d: Declick, count: nat): (got: seq<real>)
    ensures |got| == count
    ensures -1.0 <= d.lastOut <= 1.0 ==> forall i :: 0 <= i < count ==> -1.0 <= got[i] <= 1.0
  {
    seq(count, i => Opposed(d.lastOut))
  }

  function Opposed(level: real): real {
    if level > 0.0 then level - 1.0 else level + 1.0
  }

  lemma JoltSteps(d: Declick, count: nat, wanted: nat)
    requires Settled(d) && Trickles(d.starving, count, wanted)
    ensures !Seamless(d, Jolt(d, count), wanted)
  {
    TrickleSeamlessIff(d, Jolt(d, count), wanted);
    var weight := if count - 1 < FADE then Gain(count - 1) else 1.0;
    assert FadedIn(Opposed(d.lastOut), d.lastOut, count - 1)
        == d.lastOut + (if d.lastOut > 0.0 then -weight else weight);
  }

  /** Exactly when the continuity promise holds: every call of `count` samples
      for `wanted` is seamless, if and only if it is not served in part during
      an episode. */
  lemma SeamlessIffNotTrickling(d: Declick, count: nat, wanted: nat)
    requires Settled(d) && count <= wanted
    ensures (forall got: seq<real> :: |got| == count ==> Seamless(d, got, wanted))
            <==> !Trickles(d.starving, count, wanted)
  {
    if Trickles(d.starving, count, wanted) {
      JoltSteps(d, count, wanted);
    } else {
      forall got: seq<real> | |got| == count
        ensures Seamless(d, got, wanted)
      {
        UntrickledIsSeamless(d, got, wanted);
      }
    }
  }

  /** Smooth padding steps down by one same 96th of the level it decays from,
      the first padded sample included, until it is true zero. */
  lemma UnderrunFades(d: Declick, got: seq<real>, wanted: nat, i: nat)
    requires |got| <= i < wanted && PadsSmoothly(d, got, wanted)
    ensures var out := Output(d, got, wanted);
            var before := if i > 0 then out[i - 1] else d.lastOut;
            var start := if got != [] then out[|got| - 1] else d.lastOut;
            var base := if d.starving then d.tailBase else start;
            var step := TailStart(d) + i - |got|;
            && before - out[i] == (if step < FADE then base / FADE as real else 0.0)
            && (step + 1 >= FADE ==> out[i] == 0.0)
  {
    var out := Output(d, got, wanted);
    var start := if got != [] then out[|got| - 1] else d.lastOut;
    LevelSteps(if d.starving then d.tailBase else start, TailStart(d) + i - |got|);
    if i > |got| {
      assert out[i - 1] == Level(if d.starving then d.tailBase else start, TailStart(d) + (i - 1) - |got| + 1);
    }
  }

  // ----- Runs of calls ------------------------------------------------------

  datatype Call = Call(got: seq<real>, wanted: nat)

  ghost predicate Served(calls: seq<Call>) {
    forall i :: 0 <= i < |calls| ==> |calls[i].got| <= calls[i].wanted
  }

  /** The declick after these calls on a fresh ring. */
  ghost function StateAfter(calls: seq<Call>): Declick
    requires Served(calls)
  {
    if calls == [] then Silent
    else
      var last := calls[|calls| - 1];
      After(StateAfter(calls[..|calls| - 1]), last.got, last.wanted)
  }

  lemma {:induction false} RunSettles(calls: seq<Call>)
    requires Served(calls)
    ensures Settled(StateAfter(calls))
    ensures StateAfter(calls).starving <==>
              calls != [] && |calls[|calls| - 1].got| < calls[|calls| - 1].wanted
  {
    if calls != [] {
      var init, last := calls[..|calls| - 1], calls[|calls| - 1];
      RunSettles(init);
      CallSettles(StateAfter(init), last.got, last.wanted);
    }
  }

  /** Call `i` is served in part right after a call that starved. */
  predicate TricklesAt(calls: seq<Call>, i: nat)
    requires i < |calls|
  {
    i > 0 && |calls[i - 1].got| < calls[i - 1].wanted && 0 < |calls[i].got| < calls[i].wanted
  }

  /** Over every run of render calls from a fresh ring: call `i` is seamless for
      every samples it might have carried, if and only if it is not served in
      part right after a call that starved. */
  lemma RunSeamlessIff(calls: seq<Call>, i: nat)
    requires Served(calls) && i < |calls|
    ensures (forall got: seq<real> :: |got| == |calls[i].got| ==>
               Seamless(StateAfter(calls[..i]), got, calls[i].wanted))
            <==> !TricklesAt(calls, i)
  {
    RunSettles(calls[..i]);
    SeamlessIffNotTrickling(StateAfter(calls[..i]), |calls[i].got|, calls[i].wanted);
  }

  /** Both seams break on real runs: one sample after a starved call is mixed
      with a level of long ago, and a trickle of full level steps straight back
      to the silence it interrupted. */
  lemma TrickleStepsToSilence()
    ensures var d := After(Silent, [1.0], 2);
            && d.lastOut == 95.0 / 96.0 && Output(d, [0.0], 2)[0] == 0.0
    ensures var d := After(Silent, [1.0], 97);
            var out := Output(d, Loud(), 97);
            && d.resumeBase == d.lastOut && out[95] == 1.0 && out[96] == 0.0
  {
    var d := After(Silent, [1.0], 97);
    CallSettles(Silent, [1.0], 97);
    PartsAt(Silent, [1.0], 97, 96);
    PartsAt(d, Loud(), 97, 95);
    PartsAt(d, Loud(), 97, 96);
  }

  function Loud(): (got: seq<real>)
    ensures |got| == 96
  {
    seq(96, i => 1.0)
  }

  // ----- A fade-in over several calls ---------------------------------------

  /** `done` samples of a fade-in from a held level are paid. */
  predicate Fading(d: Declick, from: real, done: nat) {
    && !d.starving
    && d.fadeInLeft == (if done < FADE then FADE - done else 0)
    && (done < FADE ==> d.resumeBase == from)
  }

  /** A call goes on with the fade where the last one left it, starved or not. */
  lemma FadeGoesOn(d: Declick, got: seq<real>, wanted: nat, from: real, done: nat)
    requires Fading(d, from, done) && |got| <= wanted
    ensures forall i :: 0 <= i < |got| ==> Output(d, got, wanted)[i] == FadedIn(got[i], from, done + i)
    ensures |got| == wanted ==> Fading(After(d, got, wanted), from, done + |got|)
  {
  }

  function RenderEach(d: Declick, calls: seq<seq<real>>): seq<real>
    decreases |calls|
  {
    if calls == [] then []
    else Output(d, calls[0], |calls[0]|) + RenderEach(After(d, calls[0], |calls[0]|), calls[1..])
  }

  function Joined(calls: seq<seq<real>>): seq<real>
    decreases |calls|
  {
    if calls == [] then [] else calls[0] + Joined(calls[1..])
  }

  function FadedStream(samples: seq<real>, from: real, done: nat): seq<real> {
    seq(|samples|, i requires 0 <= i < |samples| => FadedIn(samples[i], from, done + i))
  }

  lemma {:induction false} FadeSpansCalls(d: Declick, calls: seq<seq<real>>, from: real, done: nat)
    requires Fading(d, from, done)
    ensures RenderEach(d, calls) == FadedStream(Joined(calls), from, done)
    decreases |calls|
  {
    if calls != [] {
      var got := calls[0];
      FadeGoesOn(d, got, |got|, from, done);
      assert Output(d, got, |got|) == FadedStream(got, from, done);
      FadeSpansCalls(After(d, got, |got|), calls[1..], from, done + |got|);
    }
  }

  /** After a starved call, however the calls that follow cut up the stream, the
      output is that stream faded in over 96 samples from the last sample out,
      and exact past them. */
  lemma RecoveryFadesIn(d: Declick, calls: seq<seq<real>>)
    requires Settled(d) && d.starving
    ensures RenderEach(d, calls) == FadedStream(Joined(calls), d.lastOut, 0)
  {
    if calls != [] {
      var got := calls[0];
      var after := After(d, got, |got|);
      assert Fading(after, d.lastOut, |got|);
      UntrickledIsSeamless(d, got, |got|);
      CallSettles(d, got, |got|);
      assert Output(d, got, |got|) == FadedStream(got, d.lastOut, 0);
      FadeSpansCalls(after, calls[1..], d.lastOut, |got|);
    }
  }

  /** Once the fade is paid, samples pass through exactly until the next
      underrun. */
  lemma SteadyIsExact(d: Declick, got: seq<real>)
    requires Settled(d) && !d.starving && d.fadeInLeft == 0
    ensures Output(d, got, |got|) == got
    ensures After(d, got, |got|).fadeInLeft == 0 && !After(d, got, |got|).starving
  {
  }

  // ----- The ring's loops ---------------------------------------------------

  ghost function Queued(cells: seq<real>, read: nat, write: nat): seq<real>
    requires |cells| == CAPACITY && read <= write
  {
    seq(write - read, i requires 0 <= i < write - read => cells[(read + i) % CAPACITY])
  }

  class PcmRing {
    const buffer: array<real>
    var readCounter: nat
    var writeCounter: nat
    var framesRendered: nat
    var declick: Declick

    ghost predicate Valid()
      reads this
    {
      && buffer.Length == CAPACITY
      && readCounter <= writeCounter <= readCounter + CAPACITY
      && framesRendered == readCounter
    }

    /** The samples written and not yet rendered, oldest first. */
    ghost function Contents(): (s: seq<real>)
      requires Valid()
      reads this, buffer
      ensures |s| == writeCounter - readCounter
    {
      Queued(buffer[..], readCounter, writeCounter)
    }

    constructor ()
      ensures Valid() && Contents() == [] && declick == Silent && fresh(buffer)
    {
      buffer := new real[CAPACITY];
      readCounter, writeCounter, framesRendered := 0, 0, 0;
      declick := Silent;
    }

    /** Appends; the pump's guards keep the depth far below the capacity. */
    method Write(pcm: seq<real>)
      requires Valid() && |Contents()| + |pcm| <= CAPACITY
      modifies this`writeCounter, buffer
      ensures Valid() && Contents() == old(Contents()) + pcm
    {
      var write := writeCounter;
      ghost var before := Contents();
      for frame := 0 to |pcm|
        invariant writeCounter == write && readCounter == old(readCounter) && Valid()
        invariant Queued(buffer[..], readCounter, write + frame) == before + pcm[..frame]
      {
        StoreNext(write + frame, pcm[frame]);
        assert pcm[..frame + 1] == pcm[..frame] + [pcm[frame]];
      }
      writeCounter := write + |pcm|;
      assert pcm[..|pcm|] == pcm;
    }

    method StoreNext(at: nat, sample: real)
      requires Valid() && readCounter <= at < readCounter + CAPACITY
      modifies buffer
      ensures Queued(buffer[..], readCounter, at + 1) == old(Queued(buffer[..], readCounter, at)) + [sample]
    {
      buffer[at % CAPACITY] := sample;
    }

    /** Hands out what there is, faded while a fade is owed, pads the rest down to
        silence, and settles the declick's books. */
    method Render(wanted: nat) returns (out: seq<real>)
      requires Valid()
      modifies this
      ensures Valid()
      ensures var n := if wanted < |old(Contents())| then wanted else |old(Contents())|;
              && out == Output(old(declick), old(Contents())[..n], wanted)
              && declick == After(old(declick), old(Contents())[..n], wanted)
              && Contents() == old(Contents())[n..]
              && framesRendered == old(framesRendered) + n
    {
      var available := if wanted < writeCounter - readCounter then wanted else writeCounter - readCounter;
      ghost var d, got := declick, Contents()[..available];
      out := FadeFront(available, available < wanted);
      if available < wanted { out := PadEpisode(out, wanted); }
      assert out == Output(d, got, wanted);
      if wanted > 0 { declick := declick.(lastOut := out[wanted - 1]); }
      SettleDeclick(available, wanted);
      framesRendered := framesRendered + available;
      readCounter := readCounter + available;
    }

    /** After an episode the crossfade starts from the tail's current value. */
    method FadeFront(available: nat, starving: bool) returns (front: seq<real>)
      requires Valid() && available <= |Contents()|
      modifies this`declick
      ensures front == RealPart(old(declick), Contents()[..available], starving)
      ensures declick == old(declick).(resumeBase := Resume(old(declick), starving))
    {
      if !starving && declick.starving {
        declick := declick.(resumeBase := Level(declick.tailBase, declick.tailDone));
      }
      front := CopyFaded(available);
    }

    /** A new episode decays from the sample before it; an old one goes on. */
    method PadEpisode(front: seq<real>, wanted: nat) returns (out: seq<real>)
      requires |front| <= wanted
      modifies this`declick
      ensures out == front + Tail(Base(old(declick), front), TailStart(old(declick)), wanted - |front|)
      ensures declick == old(declick).(tailBase := Base(old(declick), front), tailDone := TailStart(old(declick)))
    {
      if !declick.starving {
        declick := declick.(tailBase := if front != [] then front[|front| - 1] else declick.lastOut,
                            tailDone := 0);
      }
      out := PadOut(front, wanted);
    }

    method SettleDeclick(available: nat, wanted: nat)
      requires available <= wanted
      modifies this`declick
      ensures declick == if available < wanted
                         then old(declick).(tailDone := old(declick).tailDone + wanted - available,
                                            starving := true, fadeInLeft := FADE)
                         else old(declick).(starving := false,
                                            fadeInLeft := if old(declick).fadeInLeft < available then 0
                                                          else old(declick).fadeInLeft - available)
    {
      if available < wanted {
        declick := declick.(tailDone := declick.tailDone + wanted - available,
                            starving := true, fadeInLeft := FADE);
      } else {
        declick := declick.(starving := false,
                            fadeInLeft := if declick.fadeInLeft < available then 0
                                          else declick.fadeInLeft - available);
      }
    }

    /** The available samples out of their slots, each through the crossfade. */
    method CopyFaded(available: nat) returns (out: seq<real>)
      requires Valid() && available <= |Contents()|
      ensures |out| == available
      ensures forall i :: 0 <= i < available ==>
                out[i] == Faded(Contents()[i], declick.resumeBase, declick.fadeInLeft, i)
    {
      out := [];
      for frame := 0 to available
        invariant |out| == frame
        invariant forall i :: 0 <= i < frame ==>
                    out[i] == Faded(Contents()[i], declick.resumeBase, declick.fadeInLeft, i)
      {
        var sample := buffer[(readCounter + frame) % CAPACITY];
        if frame < declick.fadeInLeft <= FADE {
          var gain := Gain(FADE - declick.fadeInLeft + frame);
          sample := sample * gain + declick.resumeBase * (1.0 - gain);
        }
        out := out + [sample];
      }
    }

    /** The decay tail, from where the episode stands. */
    method PadOut(front: seq<real>, wanted: nat) returns (out: seq<real>)
      requires |front| <= wanted
      ensures out == front + Tail(declick.tailBase, declick.tailDone, wanted - |front|)
    {
      out := front;
      for frame := |front| to wanted
        invariant out == front + Tail(declick.tailBase, declick.tailDone, frame - |front|)
      {
        var index := declick.tailDone + frame - |front|;
        var level := if index < FADE then declick.tailBase * (FADE - 1 - index) as real / FADE as real else 0.0;
        assert level == Level(declick.tailBase, index + 1);
        out := out + [level];
      }
    }
  }
}
