/** What the repair policy's counters count. By one input each counter moves for a
    reason the caller can see; and over whole runs the entries and the escalations
    they count are those that left the policy, and every refusal was heeded or
    ignored. */
module NackCounters {
  import opened Wrappers
  import opened IntSets
  import opened ClientNackPolicy
  import opened NackRuns

  // ----- One input ----------------------------------------------------------

  function Fresher(p: Policy, frame: int): Book {
    if frame in p.books then p.books[frame] else Book({}, {}, None, false, false, Pending, 0)
  }

  /** A live frame, not refused, lost more than parity mends. */
  predicate IsPast(p: Policy, input: Input) {
    && input.Candidates? && |input.missing| > input.parity
    && Fresher(p, input.frame).fate == Pending && !Fresher(p, input.frame).refusedStale
  }

  /** How often the list names a shard not asked before. */
  function New(missing: seq<int>, asked: set<int>): nat {
    if missing == [] then 0 else Count(missing[0] !in asked) + New(missing[1..], asked)
  }

  lemma {:induction false} NewIs(missing: seq<int>, asked: set<int>)
    ensures |Unasked(missing, asked)| == New(missing, asked)
  {
    if missing != [] { NewIs(missing[1..], asked); }
  }

  /** What an ask counts: the first time past parity, the entry and its shards, or that
      it came too late. */
  lemma AskCounts(p: Policy, input: Input, now: int)
    requires Inv(p) && input.Candidates?
    ensures Step(p, input, now).1.escalations == []
    ensures var (q, d) := Step(p, input, now);
            var past := IsPast(p, input);
            var unasked := Fresher(p, input.frame).asked == {};
            var inTime := InTime(p.cfg, input.age, input.rtt);
            var shards := New(input.missing, Fresher(p, input.frame).asked);
            q.stats == p.stats.(
              pastParity := p.stats.pastParity + Count(past && unasked),
              entries := p.stats.entries + |d.nacks|,
              shardsAsked := p.stats.shardsAsked + (if past && inTime then shards else 0),
              suppressedStale := p.stats.suppressedStale + Count(past && !inTime && unasked))
  {
    var b := BookOf(p, input.frame, now);
    NewIs(input.missing, b.asked);
    InTimeIs(p.cfg, input.age, input.rtt);
  }

  /** What the host's answers and the decoder count. */
  lemma AnswerCounts(p: Policy, input: Input, now: int)
    requires input.RepairAccepted? || input.FrameDecoded? || input.SatisfiedDropped? || input.StaleDropped?
    ensures var b := Fresher(p, input.frame);
            var satisfied := input.SatisfiedDropped? && input.index in b.asked;
            var stale := input.StaleDropped? && b.asked != {};
            Step(p, input, now).0.stats == p.stats.(
              repairShards := p.stats.repairShards + Count(input.RepairAccepted?),
              completedByRepair := p.stats.completedByRepair
                + Count(input.FrameDecoded? && b.fate == Pending && b.sawRepair && b.asked != {}),
              duplicate := p.stats.duplicate + Count(satisfied && input.index in b.accepted),
              late := p.stats.late + Count((satisfied && input.index !in b.accepted) || (stale && b.fate == Decoded)),
              superseded := p.stats.superseded + Count(stale && b.fate != Decoded))
  {
  }

  /** What the endings count: frames escalated, refusals heeded or not, an IDR held. */
  lemma EndCounts(p: Policy, input: Input, now: int)
    requires Inv(p) && Proper(p, input)
    requires input.RangeIsGone? || input.Refusal? || input.FecImpossible? || input.Beat?
    ensures var (q, d) := Step(p, input, now);
            var asked := input.RangeIsGone? && q.stats.whollyLost == p.stats.whollyLost;
            && q.stats == p.stats.(
                 escalated := p.stats.escalated + (if asked || input.Beat? then |d.escalations| else 0),
                 whollyLost := q.stats.whollyLost,
                 refusals := p.stats.refusals + Count(input.Refusal?),
                 refusalsActedOn := p.stats.refusalsActedOn + (if input.Refusal? then |d.escalations| else 0),
                 refusalsIgnored := p.stats.refusalsIgnored + Count(input.Refusal? && d.escalations == []),
                 deferred := p.stats.deferred + Count(input.FecImpossible? && Defers(p, input.frame, now)))
            && q.stats.whollyLost <= p.stats.whollyLost + Count(input.RangeIsGone?)
            && (q.stats.whollyLost != p.stats.whollyLost ==>
                  q.stats.escalated == p.stats.escalated && |d.escalations| == 1)
  {
    if input.RangeIsGone? {
      var n := Offset(input.from, input.through) + 1;
      SortedCounts(Expired(p.books, input.from, n));
    } else if input.Beat? {
      SortedCounts(OverdueFrames(p, now));
    }
  }

  lemma {:induction false} SortedCounts(s: set<int>)
    ensures |Sorted(s)| == |s|
    decreases |s|
  {
    if s != {} { SortedCounts(s - {Oldest(s)}); }
  }

  // ----- Whole runs ---------------------------------------------------------

  /** How many entries and escalations left over the run. */
  ghost function Left(p: Policy, events: seq<Event>): (nat, nat)
    decreases |events|
  {
    if events == [] then (0, 0)
    else
      var (q, d) := Step(p, events[0].input, events[0].now);
      var rest := Left(q, events[1..]);
      (|d.nacks| + rest.0, |d.escalations| + rest.1)
  }

  /** Every frame given up on: in its own right, as its host refused it, or with the
      whole range. */
  function GivenUpOn(s: Stats): nat {
    s.escalated + s.refusalsActedOn + s.whollyLost
  }

  /** Over any run the counters add up: entries to the entries sent, the give-ups to the
      escalations sent, and refusals to those heeded and those ignored. */
  lemma {:induction false} CountsAddUp(p: Policy, events: seq<Event>)
    requires Inv(p) && AllProper(p, events)
    ensures var s := Run(p, events).stats;
            && s.entries == p.stats.entries + Left(p, events).0
            && GivenUpOn(s) == GivenUpOn(p.stats) + Left(p, events).1
            && s.refusals - s.refusalsActedOn - s.refusalsIgnored
               == p.stats.refusals - p.stats.refusalsActedOn - p.stats.refusalsIgnored
    decreases |events|
  {
    if events != [] {
      var e := events[0];
      StepKeeps(p, e.input, e.now);
      StepAddsUp(p, e.input, e.now);
      CountsAddUp(Step(p, e.input, e.now).0, events[1..]);
    }
  }

  /** So from the start they are those sums. */
  lemma CountsOfARun(cfg: Config, events: seq<Event>)
    requires AllProper(Fresh(cfg), events)
    ensures var s := Run(Fresh(cfg), events).stats;
            && s.entries == Left(Fresh(cfg), events).0
            && GivenUpOn(s) == Left(Fresh(cfg), events).1
            && s.refusals == s.refusalsActedOn + s.refusalsIgnored
  {
    CountsAddUp(Fresh(cfg), events);
  }

  lemma StepAddsUp(p: Policy, input: Input, now: int)
    requires Inv(p) && Proper(p, input)
    ensures var (q, d) := Step(p, input, now);
            && q.stats.entries == p.stats.entries + |d.nacks|
            && GivenUpOn(q.stats) == GivenUpOn(p.stats) + |d.escalations|
            && q.stats.refusals - q.stats.refusalsActedOn - q.stats.refusalsIgnored
               == p.stats.refusals - p.stats.refusalsActedOn - p.stats.refusalsIgnored
  {
    if input.Candidates? {
      AskCounts(p, input, now);
    } else {
      OthersAskNothing(p, input, now);
      if input.RangeIsGone? || input.Refusal? || input.FecImpossible? || input.Beat? {
        EndCounts(p, input, now);
      } else {
        AnswerCounts(p, input, now);
      }
    }
  }
}
