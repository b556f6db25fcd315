/** The accelerate-only time compressor: whole waveform periods are excised
    under a crossfade, paid for from a token bucket. */
module AudioAccelerator {
  import opened Wrappers

  datatype Frame = Frame(left: real, right: real)

  datatype Config = Config(minPeriod: nat, maxPeriod: nat, ratePercent: nat, minCorrelation: real) {
    function Gather(): nat {
      2 * maxPeriod
    }

    predicate Valid() {
      1 <= minPeriod <= maxPeriod
    }
  }

  const DEFAULT := Config(120, 480, 5, 0.5)

  /** The period the autocorrelation search settles on. */
  datatype Best = Best(period: nat, correlation: real)

  /** The crossfade's weight for each frame of a cut. */
  type Ramp = nat -> real

  datatype Accelerator = Accelerator(
    cfg: Config, pending: seq<Frame>, budget: real,
    input: nat, output: nat, removed: nat, ops: nat, deferred: nat)

  function Fresh(cfg: Config): Accelerator {
    Accelerator(cfg, [], cfg.maxPeriod as real, 0, 0, 0, 0, 0)
  }

  /** The search looks from the shortest period to half the gather, and finds
      nothing only when that range is empty. */
  predicate InRange(cfg: Config, pending: nat, best: Option<Best>) {
    var maxT := if cfg.maxPeriod < pending / 2 then cfg.maxPeriod else pending / 2;
    if maxT < cfg.minPeriod then best.None?
    else best.Some? && cfg.minPeriod <= best.value.period <= maxT
  }

  function Mix(a: Frame, b: Frame, w: real): Frame {
    Frame(a.left * (1.0 - w) + b.left * w, a.right * (1.0 - w) + b.right * w)
  }

  /** Two periods become one. */
  function Crossfade(x: seq<Frame>, period: nat, ramp: Ramp): seq<Frame>
    requires 2 * period <= |x|
  {
    seq(period, i requires 0 <= i < period => Mix(x[i], x[i + period], ramp(i)))
  }

  function Refill(a: Accelerator, frames: nat): Accelerator {
    var budget := a.budget + frames as real * a.cfg.ratePercent as real / 100.0;
    var cap := a.cfg.maxPeriod as real;
    a.(input := a.input + frames, budget := if budget < cap then budget else cap)
  }

  predicate Gathering(a: Accelerator, accelerate: bool) {
    accelerate && a.budget >= a.cfg.maxPeriod as real - 0.5
  }

  function EmitAll(a: Accelerator): (Accelerator, seq<Frame>) {
    (a.(pending := [], output := a.output + |a.pending|), a.pending)
  }

  predicate Cuts(a: Accelerator, best: Option<Best>) {
    best.Some? && best.value.correlation >= a.cfg.minCorrelation
    && a.budget >= best.value.period as real
  }

  function CutAndEmitAll(a: Accelerator, best: Option<Best>, ramp: Ramp): (Accelerator, seq<Frame>)
    requires InRange(a.cfg, |a.pending|, best)
  {
    if !Cuts(a, best) then EmitAll(a.(deferred := a.deferred + 1))
    else
      var period := best.value.period;
      var out := Crossfade(a.pending, period, ramp) + a.pending[2 * period..];
      (a.(pending := [], output := a.output + |out|, budget := a.budget - period as real,
          removed := a.removed + period, ops := a.ops + 1), out)
  }

  function Process(a: Accelerator, pcm: seq<Frame>, accelerate: bool, best: Option<Best>, ramp: Ramp)
    : (Accelerator, seq<Frame>)
    requires InRange(a.cfg, |a.pending + pcm|, best)
  {
    Pass(Refill(a, |pcm|), pcm, accelerate, best, ramp)
  }

  /** A refilled pump step: through, out of the gather, or into it. */
  function Pass(b: Accelerator, pcm: seq<Frame>, accelerate: bool, best: Option<Best>, ramp: Ramp)
    : (Accelerator, seq<Frame>)
    requires InRange(b.cfg, |b.pending + pcm|, best)
  {
    var gathering := Gathering(b, accelerate);
    if b.pending == [] && !gathering then (b.(output := b.output + |pcm|), pcm)
    else
      var c := b.(pending := b.pending + pcm);
      if !gathering then EmitAll(c)
      else if |c.pending| >= c.cfg.Gather() then CutAndEmitAll(c, best, ramp)
      else (c, [])
  }

  // ----- What one call answers ----------------------------------------------

  /** The bucket after a call's refill. */
  function Tokens(a: Accelerator, frames: nat): real {
    var all := a.budget + frames as real * a.cfg.ratePercent as real / 100.0;
    if all < a.cfg.maxPeriod as real then all else a.cfg.maxPeriod as real
  }

  /** A full bucket, and leave to accelerate: the call gathers. */
  predicate Gathers(a: Accelerator, frames: nat, accelerate: bool) {
    accelerate && Tokens(a, frames) >= a.cfg.maxPeriod as real - 0.5
  }

  /** What is gathered is still less than two of the longest periods. */
  predicate Holds(a: Accelerator, frames: nat, accelerate: bool) {
    Gathers(a, frames, accelerate) && |a.pending| + frames < 2 * a.cfg.maxPeriod
  }

  /** A period was found that correlates and that the bucket pays for. */
  predicate Excises(a: Accelerator, frames: nat, accelerate: bool, best: Option<Best>) {
    && Gathers(a, frames, accelerate) && !Holds(a, frames, accelerate)
    && best.Some? && best.value.correlation >= a.cfg.minCorrelation
    && Tokens(a, frames) >= best.value.period as real
  }

  /** A call holds everything back while it gathers, and else hands all of it out: with
      the found period cut, exactly when that is worth it, or as it came. */
  lemma ProcessAnswers(a: Accelerator, pcm: seq<Frame>, accelerate: bool, best: Option<Best>, ramp: Ramp)
    requires InRange(a.cfg, |a.pending + pcm|, best)
    ensures var (b, out) := Process(a, pcm, accelerate, best, ramp);
            var all, n := a.pending + pcm, |pcm|;
            var holds, cuts := Holds(a, n, accelerate), Excises(a, n, accelerate, best);
            && out == (if holds then []
                       else if cuts then Crossfade(all, best.value.period, ramp) + all[2 * best.value.period..]
                       else all)
            && b == Accelerator(
                 a.cfg, if holds then all else [],
                 Tokens(a, n) - (if cuts then best.value.period as real else 0.0),
                 a.input + n, a.output + |out|, a.removed + (if cuts then best.value.period else 0),
                 a.ops + Count(cuts), a.deferred + Count(Gathers(a, n, accelerate) && !holds && !cuts))
  {
    var b := Refill(a, |pcm|);
    assert a.pending == [] ==> a.pending + pcm == pcm;
  }

  /** `w` of the way from `a` to `b`. */
  function Between(a: real, b: real, w: real): real {
    a + w * (b - a)
  }

  lemma MixIsBetween(a: real, b: real, w: real)
    ensures a * (1.0 - w) + b * w == Between(a, b, w)
  {}

  /** The crossfade goes from the first period to the second by the ramp, frame by frame,
      channel by channel: it starts on the one at weight zero and is the other at one. */
  lemma CrossfadeBlends(x: seq<Frame>, period: nat, ramp: Ramp, i: nat)
    requires 2 * period <= |x| && i < period
    ensures |Crossfade(x, period, ramp)| == period
    ensures Crossfade(x, period, ramp)[i]
            == Frame(Between(x[i].left, x[i + period].left, ramp(i)), Between(x[i].right, x[i + period].right, ramp(i)))
  {
    MixIsBetween(x[i].left, x[i + period].left, ramp(i));
    MixIsBetween(x[i].right, x[i + period].right, ramp(i));
  }

  // ----- Conservation and the rate bound ------------------------------------

  ghost predicate Inv(a: Accelerator) {
    && a.cfg.Valid()
    && 0.0 <= a.budget <= a.cfg.maxPeriod as real
    && a.input == a.output + a.removed + |a.pending|
    && |a.pending| < a.cfg.Gather()
  }

  /** The rate's share of some input. */
  function Share(frames: nat, percent: nat): real {
    frames as real * percent as real / 100.0
  }

  lemma ShareAdds(a: nat, b: nat, percent: nat)
    ensures Share(a + b, percent) == Share(a, percent) + Share(b, percent)
    ensures Share(b, percent) >= 0.0
  {
    assert (a + b) as real * percent as real == a as real * percent as real + b as real * percent as real;
  }

  /** What the budget has paid out and still holds, less the rate's share of
      what came in: it never grows. */
  function Ledger(a: Accelerator): real {
    a.removed as real + a.budget - Share(a.input, a.cfg.ratePercent)
  }

  lemma RefillLedger(a: Accelerator, frames: nat)
    requires 0.0 <= a.budget <= a.cfg.maxPeriod as real
    ensures Ledger(Refill(a, frames)) <= Ledger(a)
    ensures 0.0 <= Refill(a, frames).budget <= a.cfg.maxPeriod as real
  {
    ShareAdds(a.input, frames, a.cfg.ratePercent);
  }

  /** After the refill a cut moves its period from the budget to `removed`. */
  lemma PassKeeps(b: Accelerator, pcm: seq<Frame>, accelerate: bool, best: Option<Best>, ramp: Ramp)
    requires b.cfg.Valid() && 0.0 <= b.budget <= b.cfg.maxPeriod as real
    requires b.input == b.output + b.removed + |b.pending| + |pcm|
    requires InRange(b.cfg, |b.pending + pcm|, best)
    ensures var (c, out) := Pass(b, pcm, accelerate, best, ramp);
            && c.cfg == b.cfg && c.input == b.input && c.output == b.output + |out|
            && c.input == c.output + c.removed + |c.pending|
            && |c.pending| < c.cfg.Gather()
            && 0.0 <= c.budget <= c.cfg.maxPeriod as real
            && c.removed as real + c.budget == b.removed as real + b.budget
  {
  }

  lemma ProcessKeeps(a: Accelerator, pcm: seq<Frame>, accelerate: bool, best: Option<Best>, ramp: Ramp)
    requires Inv(a) && InRange(a.cfg, |a.pending + pcm|, best)
    ensures var (b, out) := Process(a, pcm, accelerate, best, ramp);
            && Inv(b) && b.cfg == a.cfg
            && b.output == a.output + |out| && b.input == a.input + |pcm|
            && Ledger(b) <= Ledger(a)
  {
    RefillLedger(a, |pcm|);
    PassKeeps(Refill(a, |pcm|), pcm, accelerate, best, ramp);
  }

  // ----- Runs ---------------------------------------------------------------

  datatype Event =
    | Processed(pcm: seq<Frame>, accelerate: bool, best: Option<Best>, ramp: Ramp)
    | Flushed

  /** One excision: where in the input, how long, under which ramp. */
  datatype Cut = Cut(at: nat, period: nat, ramp: Ramp)

  /** The accelerator with all it was given, all it gave out, and its cuts. */
  datatype History = History(a: Accelerator, given: seq<Frame>, emitted: seq<Frame>, cuts: seq<Cut>)

  predicate Enabled(h: History, e: Event) {
    e.Processed? ==> InRange(h.a.cfg, |h.a.pending + e.pcm|, e.best)
  }

  function Step(h: History, e: Event): History {
    if !Enabled(h, e) then h
    else
      match e
      case Flushed =>
        var (b, out) := EmitAll(h.a);
        h.(a := b, emitted := h.emitted + out)
      case Processed(pcm, accelerate, best, ramp) =>
        var (b, out) := Process(h.a, pcm, accelerate, best, ramp);
        var more := if b.ops > h.a.ops && best.Some? && |h.a.pending| <= |h.given|
                    then [Cut(|h.given| - |h.a.pending|, best.value.period, ramp)] else [];
        History(b, h.given + pcm, h.emitted + out, h.cuts + more)
  }

  function Steps(h: History, es: seq<Event>): History {
    if es == [] then h else Step(Steps(h, es[..|es| - 1]), es[|es| - 1])
  }

  function Run(cfg: Config, es: seq<Event>): History {
    Steps(History(Fresh(cfg), [], [], []), es)
  }

  /** The cuts lie inside the input, in order, without overlap. */
  ghost predicate Fits(length: int, cuts: seq<Cut>)
    decreases |cuts|
  {
    cuts == [] ||
    var c := cuts[|cuts| - 1];
    c.at + 2 * c.period <= length && Fits(c.at, cuts[..|cuts| - 1])
  }

  /** The input with each cut's two periods crossfaded into one; everything
      else is passed through exactly. */
  ghost function Render(given: seq<Frame>, cuts: seq<Cut>): seq<Frame>
    requires Fits(|given|, cuts)
    decreases |cuts|
  {
    if cuts == [] then given
    else
      var c := cuts[|cuts| - 1];
      Render(given[..c.at], cuts[..|cuts| - 1])
      + Crossfade(given[c.at..], c.period, c.ramp)
      + given[c.at + 2 * c.period..]
  }

  lemma RenderAppend(given: seq<Frame>, cuts: seq<Cut>, more: seq<Frame>)
    requires Fits(|given|, cuts)
    ensures Fits(|given + more|, cuts)
    ensures Render(given + more, cuts) == Render(given, cuts) + more
  {
    var all := given + more;
    if cuts != [] {
      var c := cuts[|cuts| - 1];
      assert all[..c.at] == given[..c.at];
      assert all[c.at + 2 * c.period..] == given[c.at + 2 * c.period..] + more;
      assert Crossfade(all[c.at..], c.period, c.ramp) == Crossfade(given[c.at..], c.period, c.ramp);
    }
  }

  /** The input whose rendering has been emitted; the rest is the gather. */
  function Done(h: History): int {
    |h.given| - |h.a.pending|
  }

  ghost predicate Rendered(h: History) {
    && 0 <= Done(h) && h.given[Done(h)..] == h.a.pending
    && Fits(Done(h), h.cuts)
    && h.emitted == Render(h.given[..Done(h)], h.cuts)
  }

  ghost predicate HistoryInv(h: History) {
    && Inv(h.a) && |h.given| == h.a.input && |h.emitted| == h.a.output
    && Ledger(h.a) <= h.a.cfg.maxPeriod as real
    && Rendered(h)
  }

  /** Cutting at the head of the gather. */
  lemma CutRenders(prior: seq<Frame>, cuts: seq<Cut>, gather: seq<Frame>, period: nat, ramp: Ramp)
    requires Fits(|prior|, cuts) && 2 * period <= |gather|
    ensures var more := cuts + [Cut(|prior|, period, ramp)];
            && Fits(|prior + gather|, more)
            && Render(prior + gather, more)
               == Render(prior, cuts) + (Crossfade(gather, period, ramp) + gather[2 * period..])
  {
    var at, given := |prior|, prior + gather;
    var more := cuts + [Cut(at, period, ramp)];
    assert more[..|more| - 1] == cuts;
    assert given[..at] == prior && given[at..] == gather;
    assert given[at + 2 * period..] == gather[2 * period..];
  }

  lemma FlushRenders(h: History)
    requires Rendered(h)
    ensures Rendered(Step(h, Flushed))
  {
    var prior := h.given[..Done(h)];
    RenderAppend(prior, h.cuts, h.a.pending);
    assert prior + h.a.pending == h.given;
    assert h.given[..|h.given|] == h.given;
  }

  /** A step that keeps the cuts: what is emitted is raw input, in order. */
  lemma PassRenders(h: History, t: History, pcm: seq<Frame>, out: seq<Frame>)
    requires Rendered(h) && t.given == h.given + pcm && t.cuts == h.cuts
    requires t.emitted == h.emitted + out && out + t.a.pending == h.a.pending + pcm
    ensures Rendered(t)
  {
    var prior := h.given[..Done(h)];
    assert t.given == prior + (h.a.pending + pcm) == prior + (out + t.a.pending);
    RenderAppend(prior, h.cuts, out);
    assert t.given[..Done(t)] == prior + out;
    assert t.given[Done(t)..] == t.a.pending;
  }

  lemma CutStepRenders(h: History, t: History, pcm: seq<Frame>, period: nat, ramp: Ramp)
    requires Rendered(h) && t.given == h.given + pcm && t.a.pending == []
    requires 2 * period <= |h.a.pending + pcm|
    requires t.cuts == h.cuts + [Cut(Done(h), period, ramp)]
    requires var gather := h.a.pending + pcm;
             t.emitted == h.emitted + (Crossfade(gather, period, ramp) + gather[2 * period..])
    ensures Rendered(t)
  {
    var prior := h.given[..Done(h)];
    assert t.given == prior + (h.a.pending + pcm);
    CutRenders(prior, h.cuts, h.a.pending + pcm, period, ramp);
    assert t.given[..|t.given|] == t.given;
  }

  lemma ProcessRenders(h: History, pcm: seq<Frame>, accelerate: bool, best: Option<Best>, ramp: Ramp)
    requires Rendered(h) && h.a.cfg.Valid() && Enabled(h, Processed(pcm, accelerate, best, ramp))
    ensures Rendered(Step(h, Processed(pcm, accelerate, best, ramp)))
  {
    var t := Step(h, Processed(pcm, accelerate, best, ramp));
    var (b, out) := Process(h.a, pcm, accelerate, best, ramp);
    if b.ops > h.a.ops {
      CutStepRenders(h, t, pcm, best.value.period, ramp);
    } else {
      assert out + b.pending == h.a.pending + pcm;
      PassRenders(h, t, pcm, out);
    }
  }

  lemma StepKeeps(h: History, e: Event)
    requires HistoryInv(h)
    ensures HistoryInv(Step(h, e)) && Ledger(Step(h, e).a) <= Ledger(h.a)
    ensures Step(h, e).a.cfg == h.a.cfg
  {
    if Enabled(h, e) {
      match e
      case Flushed => FlushRenders(h);
      case Processed(pcm, accelerate, best, ramp) =>
        ProcessKeeps(h.a, pcm, accelerate, best, ramp);
        ProcessRenders(h, pcm, accelerate, best, ramp);
    }
  }

  lemma {:induction false} StepsKeep(h: History, es: seq<Event>)
    requires HistoryInv(h)
    ensures HistoryInv(Steps(h, es)) && Steps(h, es).a.cfg == h.a.cfg
    ensures Ledger(Steps(h, es).a) <= Ledger(h.a)
  {
    if es != [] {
      StepsKeep(h, es[..|es| - 1]);
      StepKeeps(Steps(h, es[..|es| - 1]), es[|es| - 1]);
    }
  }

  lemma StartIsInv(cfg: Config)
    requires cfg.Valid()
    ensures HistoryInv(History(Fresh(cfg), [], [], []))
  {
    var none: seq<Frame> := [];
    assert none[..0] == [];
  }

  /** Over any stretch of calls, from any point of any run: what it removes is
      at most one banked period plus the rate's share of what it was given. */
  lemma RateBound(cfg: Config, before: seq<Event>, stretch: seq<Event>)
    requires cfg.Valid()
    ensures var h := Run(cfg, before);
            var t := Steps(h, stretch);
            t.a.removed as real - h.a.removed as real
            <= cfg.maxPeriod as real
               + (Share(|t.given|, cfg.ratePercent) - Share(|h.given|, cfg.ratePercent))
  {
    StartIsInv(cfg);
    StepsKeep(History(Fresh(cfg), [], [], []), before);
    StepsKeep(Run(cfg, before), stretch);
  }

  /** In every run, after every call: each input frame is out, removed or
      gathered; the gather holds less than one operation; removal stays within
      one period plus the rate's share; and the output with the gather behind
      it is the input with exactly the recorded cuts crossfaded. */
  lemma ConservationAndRate(cfg: Config, es: seq<Event>)
    requires cfg.Valid()
    ensures var h := Run(cfg, es);
            && |h.given| == |h.emitted| + h.a.removed + |h.a.pending|
            && |h.a.pending| < cfg.Gather()
            && h.a.removed as real <= cfg.maxPeriod as real + Share(|h.given|, cfg.ratePercent)
            && Fits(|h.given|, h.cuts)
            && h.emitted + h.a.pending == Render(h.given, h.cuts)
  {
    StartIsInv(cfg);
    StepsKeep(History(Fresh(cfg), [], [], []), es);
    var h := Run(cfg, es);
    RenderAppend(h.given[..Done(h)], h.cuts, h.a.pending);
    assert h.given[..Done(h)] + h.a.pending == h.given;
  }

  // ----- The source's own form ----------------------------------------------

  const COMPACT_PAST: nat := 16_384

  class Accelerate {
    const cfg: Config
    var fifo: seq<Frame>
    var head: nat
    var budget: real
    var input: nat
    var output: nat
    var removed: nat
    var ops: nat
    var deferred: nat

    ghost predicate Valid()
      reads this
    {
      head <= |fifo|
    }

    ghost function State(): Accelerator
      requires Valid()
      reads this
    {
      Accelerator(cfg, fifo[head..], budget, input, output, removed, ops, deferred)
    }

    constructor (cfg: Config)
      ensures Valid() && State() == Fresh(cfg)
    {
      this.cfg := cfg;
      fifo, head, budget := [], 0, cfg.maxPeriod as real;
      input, output, removed, ops, deferred := 0, 0, 0, 0, 0;
    }

    method Append(pcm: seq<Frame>)
      requires Valid()
      modifies this`fifo, this`head
      ensures Valid() && fifo[head..] == old(fifo[head..]) + pcm
    {
      if head == |fifo| {
        fifo, head := [], 0;
      } else if head > COMPACT_PAST {
        fifo, head := fifo[head..], 0;
      }
      fifo := fifo + pcm;
    }

    method TakeAll() returns (out: seq<Frame>)
      requires Valid()
      modifies this`fifo, this`head
      ensures Valid() && fifo[head..] == [] && out == old(fifo[head..])
    {
      out := [];
      if head < |fifo| {
        out := fifo[head..];
        fifo, head := [], 0;
      }
    }

    method FadePeriod(period: nat, ramp: Ramp) returns (out: seq<Frame>)
      requires Valid() && 2 * period <= |fifo| - head
      ensures out == Crossfade(fifo[head..], period, ramp)
    {
      out := [];
      for frame := 0 to period
        invariant out == Crossfade(fifo[head..], period, ramp)[..frame]
      {
        out := out + [Mix(fifo[head + frame], fifo[head + frame + period], ramp(frame))];
      }
    }

    method CutAndEmit(best: Option<Best>, ramp: Ramp) returns (out: seq<Frame>)
      requires Valid() && InRange(cfg, |fifo| - head, best)
      modifies this
      ensures Valid()
      ensures (State(), out) == CutAndEmitAll(old(State()), best, ramp)
    {
      if best.None? || best.value.correlation < cfg.minCorrelation
         || budget < best.value.period as real {
        deferred := deferred + 1;
        out := TakeAll();
        output := output + |out|;
        return;
      }
      var period := best.value.period;
      out := FadePeriod(period, ramp);
      ghost var gather := fifo[head..];
      head := head + 2 * period;
      assert fifo[head..] == gather[2 * period..];
      var rest := TakeAll();
      out := out + rest;
      output := output + |out|;
      budget := budget - period as real;
      removed := removed + period;
      ops := ops + 1;
    }

    method ProcessPcm(pcm: seq<Frame>, accelerate: bool, best: Option<Best>, ramp: Ramp)
      returns (out: seq<Frame>)
      requires Valid() && InRange(cfg, |fifo| - head + |pcm|, best)
      modifies this
      ensures Valid()
      ensures (State(), out) == Process(old(State()), pcm, accelerate, best, ramp)
    {
      var frames := |pcm|;
      input := input + frames;
      budget := budget + frames as real * cfg.ratePercent as real / 100.0;
      if budget >= cfg.maxPeriod as real { budget := cfg.maxPeriod as real; }
      assert State() == Refill(old(State()), |pcm|);
      out := PassPcm(pcm, accelerate, best, ramp);
    }

    method PassPcm(pcm: seq<Frame>, accelerate: bool, best: Option<Best>, ramp: Ramp)
      returns (out: seq<Frame>)
      requires Valid() && InRange(cfg, |fifo| - head + |pcm|, best)
      modifies this
      ensures Valid()
      ensures (State(), out) == Pass(old(State()), pcm, accelerate, best, ramp)
    {
      var gathering := accelerate && budget >= cfg.maxPeriod as real - 0.5;
      if head == |fifo| && !gathering {
        output := output + |pcm|;
        return pcm;
      }
      Append(pcm);
      out := [];
      if gathering {
        if |fifo| - head >= cfg.Gather() {
          out := CutAndEmit(best, ramp);
        }
      } else {
        out := TakeAll();
        output := output + |out|;
      }
    }

    method Flush() returns (out: seq<Frame>)
      requires Valid()
      modifies this
      ensures Valid() && (State(), out) == EmitAll(old(State()))
    {
      out := TakeAll();
      output := output + |out|;
    }
  }
}
