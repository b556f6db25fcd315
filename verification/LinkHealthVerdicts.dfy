/** The verdict by the failed frames themselves. Frames that fail within half a
    second of each other are one group, and the log's episodes say of each group
    when it began, when it ended, its latest frame and the stage that failed it;
    so the window's figures are those of the groups of the last minute. */
module LinkHealthVerdicts {
  import opened Wrappers
  import opened LinkHealthMeter
  import opened LinkHealthWindow

  // ----- The sitting, as frames ---------------------------------------------

  type Group = g: seq<Frame> | g != [] witness [Frame(0, None, Preserved, 0)]

  /** The failed frames of a sitting, grouped: those of the current epoch, and before
      it; with the newest ordinal seen and when the epoch's first frame came. */
  datatype Sitting = Sitting(past: seq<Group>, current: seq<Group>, newest: nat, first: Option<nat>)

  /** How late a frame came: not at all when it was early or nobody knows. */
  function Late(f: Frame): real {
    if f.lateness.Some? && f.lateness.value > 0.0 then f.lateness.value else 0.0
  }

  /** The frame comes within half a second after the group's last. */
  predicate Follows(groups: seq<Group>, f: Frame) {
    groups != [] &&
    var last := groups[|groups| - 1];
    last[|last| - 1].at <= f.at <= last[|last| - 1].at + 500_000
  }

  function Grouped(groups: seq<Group>, f: Frame): seq<Group> {
    if Follows(groups, f) then groups[|groups| - 1 := groups[|groups| - 1] + [f]] else groups + [[f]]
  }

  /** A frame counts once, and as a failure once ten seconds of its epoch passed. */
  function Sit(s: Sitting, e: Event): Sitting {
    match e
    case Seen(f) =>
      if f.ordinal <= s.newest then s
      else
        var first := if s.first.Some? then s.first.value else f.at;
        var fails := f.outcome != Preserved && f.at >= first + 10_000_000;
        s.(newest := f.ordinal, first := Some(first), current := if fails then Grouped(s.current, f) else s.current)
    case NewEpoch => Sitting(s.past + s.current, [], 0, None)
    case NewSession => Sitting([], [], 0, None)
  }

  function Sat(s: Sitting, events: seq<Event>): Sitting
    decreases |events|
  {
    if events == [] then s else Sat(Sit(s, events[0]), events[1..])
  }

  // ----- What an episode says of its group ----------------------------------

  /** The first of the latest frames of a group. */
  function Latest(g: Group): Frame
  {
    var last := g[|g| - 1];
    if |g| == 1 then last
    else
      var before := Latest(g[..|g| - 1]);
      if Late(last) > Late(before) then last else before
  }

  predicate Sums(e: Episode, g: Group) {
    && e.second == g[0].at / 1_000_000 && e.tail == g[|g| - 1].at
    && e.worst == Late(Latest(g)) && e.stage == Latest(g).outcome
  }

  predicate AllSum(es: seq<Episode>, gs: seq<Group>) {
    |es| == |gs| && forall i :: 0 <= i < |es| ==> Sums(es[i], gs[i])
  }

  predicate LogSums(l: Log, s: Sitting) {
    && AllSum(l.past, s.past) && AllSum(l.current, s.current)
    && l.highWater == s.newest && l.epochFirst == s.first
  }

  lemma StepSums(l: Log, s: Sitting, e: Event)
    requires LogSums(l, s)
    ensures LogSums(StepLog(l, e), Sit(s, e))
  {
    if e.Seen? && Counted(l.highWater, l.epochFirst, e.frame) {
      FailSums(l.current, s.current, e.frame);
    }
  }

  lemma FailSums(es: seq<Episode>, gs: seq<Group>, f: Frame)
    requires AllSum(es, gs)
    ensures var last := if es == [] then None else Some(es[|es| - 1]);
            AllSum(if Joins(last, f) then es[..|es| - 1] + [Extended(last.value, f)] else es + [Started(f)],
                   Grouped(gs, f))
  {
    if es != [] {
      var g := gs[|gs| - 1];
      assert (g + [f])[..|g|] == g;
    }
  }

  lemma {:induction false} RunSums(l: Log, s: Sitting, events: seq<Event>)
    requires LogSums(l, s)
    ensures LogSums(RunLog(l, events), Sat(s, events))
    decreases |events|
  {
    if events != [] {
      StepSums(l, s, events[0]);
      RunSums(StepLog(l, events[0]), Sit(s, events[0]), events[1..]);
    }
  }

  // ----- The recent groups --------------------------------------------------

  /** Those that began in the current second or the 59 before it. */
  function RecentOnes(gs: seq<Group>, now: nat): seq<Group>
  {
    if gs == [] then []
    else
      var g := gs[|gs| - 1];
      var rest := RecentOnes(gs[..|gs| - 1], now);
      if g[0].at / 1_000_000 <= now < g[0].at / 1_000_000 + 60 then rest + [g] else rest
  }

  /** How many groups were at their latest on the renderer. */
  function OnRenderer(gs: seq<Group>): nat
  {
    if gs == [] then 0
    else OnRenderer(gs[..|gs| - 1]) + Count(Latest(gs[|gs| - 1]).outcome == Renderer)
  }

  function Peak(gs: seq<Group>): real
  {
    if gs == [] then 0.0
    else
      var rest, last := Peak(gs[..|gs| - 1]), Late(Latest(gs[|gs| - 1]));
      if last > rest then last else rest
  }

  /** No frame of the groups is later than `peak`, and one is that late, if any failed. */
  predicate IsPeak(peak: real, gs: seq<Group>) {
    && (forall g, f :: g in gs && f in g ==> Late(f) <= peak)
    && (if gs == [] then peak == 0.0 else exists g, f :: g in gs && f in g && Late(f) == peak)
  }

  lemma {:induction false} LatestIs(g: Group)
    ensures Latest(g) in g && forall f :: f in g ==> Late(f) <= Late(Latest(g))
  {
    if |g| > 1 {
      LatestIs(g[..|g| - 1]);
      assert g == g[..|g| - 1] + [g[|g| - 1]];
    }
  }

  lemma {:induction false} PeakIs(gs: seq<Group>)
    ensures Peak(gs) >= 0.0 && IsPeak(Peak(gs), gs)
  {
    if gs != [] {
      var init, last := gs[..|gs| - 1], gs[|gs| - 1];
      PeakIs(init);
      LatestIs(last);
      assert gs == init + [last] && last in gs && Latest(last) in last;
      if init != [] && Peak(gs) == Peak(init) {
        var g, f :| g in init && f in g && Late(f) == Peak(init);
        assert g in gs;
      }
    }
  }

  lemma {:induction false} RecentSums(es: seq<Episode>, gs: seq<Group>, now: nat)
    requires AllSum(es, gs)
    ensures var t, rs := Recent(es, now), RecentOnes(gs, now);
            && t.count == |rs| && t.worst == Peak(rs)
            && t.renderers == OnRenderer(rs) && t.misses == |rs| - OnRenderer(rs)
  {
    if es != [] {
      var init, last := gs[..|gs| - 1], gs[|gs| - 1];
      RecentSums(es[..|es| - 1], init, now);
      assert gs == init + [last];
      var rest := RecentOnes(init, now);
      assert (rest + [last])[..|rest|] == rest;
    }
  }

  lemma {:induction false} WorstSums(es: seq<Episode>, gs: seq<Group>)
    requires AllSum(es, gs)
    ensures WorstOf(es) == Peak(gs)
  {
    if es != [] {
      WorstSums(es[..|es| - 1], gs[..|gs| - 1]);
      assert gs == gs[..|gs| - 1] + [gs[|gs| - 1]];
    }
  }

  // ----- The verdict --------------------------------------------------------

  /** When new failures come in time order, the verdict is poor exactly when three
      episodes began in the last minute, or a frame of one was a tenth of a second late
      or more; degraded when any did; and the stage that dominates is the renderer's
      when more of them were at their latest there than not. */
  lemma VerdictIs(events: seq<Event>, now: nat) returns (rs: seq<Group>, t: Tally)
    requires AllInOrder(NoLog, events)
    requires RunLog(NoLog, events).current != [] ==> Newest(RunLog(NoLog, events)).value.tail <= now
    ensures var gs := Sat(Sitting([], [], 0, None), events).current;
            rs == RecentOnes(gs, now / 1_000_000)
    ensures t == WindowTally(Run(Fresh, events).buckets, now / SECOND)
    ensures t.count == |rs| && IsPeak(t.worst, rs)
    ensures LevelOf(t) == if |rs| >= 3 || (exists g, f :: g in rs && f in g && Late(f) >= 100.0) then Poor
                          else if rs == [] then Good
                          else Degraded
    ensures DominantOf(t) == if rs == [] then None
                             else if 2 * OnRenderer(rs) > |rs| then Some(Renderer)
                             else Some(Miss)
  {
    var l, s := RunLog(NoLog, events), Sat(Sitting([], [], 0, None), events);
    RunSums(NoLog, Sitting([], [], 0, None), events);
    RecentSums(l.current, s.current, now / 1_000_000);
    rs := RecentOnes(s.current, now / 1_000_000);
    t := WindowTally(Run(Fresh, events).buckets, now / SECOND);
    AssessmentIsExact(events, now);
    PeakIs(rs);
  }

  /** And the session's books count every episode of the sitting, and its latest frame. */
  lemma SessionBooksAre(events: seq<Event>) returns (gs: seq<Group>)
    requires AllInOrder(NoLog, events)
    ensures var s := Sat(Sitting([], [], 0, None), events); gs == s.past + s.current
    ensures Run(Fresh, events).sessionCount == |gs| && IsPeak(Run(Fresh, events).sessionWorst, gs)
  {
    var l, s := RunLog(NoLog, events), Sat(Sitting([], [], 0, None), events);
    gs := s.past + s.current;
    RunSums(NoLog, Sitting([], [], 0, None), events);
    RunAgrees(Fresh, NoLog, events);
    WorstSums(l.past + l.current, gs);
    PeakIs(gs);
  }
}
