/** The client's IDR-request episode: every broken-reference verdict joins one
    bounded recovery episode, which ends only when a usable random-access
    frame is accepted. */
module ClientIdrRecovery {
  import opened Wrappers

  datatype Episode = Episode(newestDamagedFrame: nat, damageCount: nat, lastSentAt: Option<int>)

  datatype Request = Request(requestSeq: nat, frame: nat, coalescedCount: nat)

  datatype Recovery = Recovery(
    retryInterval: nat, episode: Option<Episode>, nextRequestSeq: nat,
    episodesStarted: nat, episodesCompleted: nat, requestsSent: nat, retryRequests: nat)
  {
    predicate IsOutstanding() {
      episode.Some?
    }

    /** Any frame outside an episode, only a random-access one inside it. */
    predicate Admits(isRandomAccess: bool) {
      episode.None? || isRandomAccess
    }

    function RecordDemand(frame: nat): Recovery {
      match episode
      case Some(e) =>
        this.(episode := Some(e.(newestDamagedFrame := frame, damageCount := e.damageCount + 1)))
      case None =>
        this.(episode := Some(Episode(frame, 1, None)), episodesStarted := episodesStarted + 1)
    }

    /** The episode's first request, or its retry once the interval passed. */
    predicate Due(now: int) {
      episode.Some?
      && (episode.value.lastSentAt.Some? ==> now - episode.value.lastSentAt.value >= retryInterval)
    }

    function RequestDue(now: int): (Recovery, Option<Request>) {
      if !Due(now) then (this, None)
      else
        var e := episode.value;
        var count := if e.damageCount > 255 then 255 else e.damageCount;
        (this.(episode := Some(e.(lastSentAt := Some(now))),
               nextRequestSeq := (nextRequestSeq + 1) % 0x1_0000_0000,
               requestsSent := requestsSent + 1,
               retryRequests := retryRequests + Count(e.lastSentAt.Some?)),
         Some(Request(nextRequestSeq, e.newestDamagedFrame, count)))
    }

    function NoteUsableIrapAccepted(): Recovery {
      if episode.None? then this
      else this.(episode := None, episodesCompleted := episodesCompleted + 1)
    }
  }

  function Fresh(retryInterval: nat): Recovery {
    Recovery(if retryInterval < 1 then 1 else retryInterval, None, 0, 0, 0, 0, 0)
  }

  // ----- Whole runs ---------------------------------------------------------

  datatype Event = Demand(frame: nat) | Ask(now: int) | Accept

  /** One request as a run saw it: when, in which episode, and how many demands
      that episode had absorbed. */
  datatype Sent = Sent(at: int, episode: nat, demands: nat, newest: nat, request: Request)

  /** A run: the state, the requests so far, and the open episode's demands. */
  datatype History = History(r: Recovery, sent: seq<Sent>, demands: seq<nat>)

  function Step(h: History, e: Event): History {
    match e
    case Demand(f) =>
      History(h.r.RecordDemand(f), h.sent, if h.r.IsOutstanding() then h.demands + [f] else [f])
    case Accept =>
      History(h.r.NoteUsableIrapAccepted(), h.sent, [])
    case Ask(now) =>
      var (r, q) := h.r.RequestDue(now);
      if q.Some? && h.demands != [] then
        var record := Sent(now, h.r.episodesStarted, |h.demands|, h.demands[|h.demands| - 1], q.value);
        History(r, h.sent + [record], h.demands)
      else History(r, h.sent, h.demands)
  }

  function Run(retryInterval: nat, es: seq<Event>): History {
    if es == [] then History(Fresh(retryInterval), [], [])
    else Step(Run(retryInterval, es[..|es| - 1]), es[|es| - 1])
  }

  /** What every reachable state keeps. */
  ghost predicate Inv(h: History) {
    var r := h.r;
    && r.retryInterval >= 1
    && r.episodesStarted == r.episodesCompleted + Count(r.IsOutstanding())
    && r.requestsSent == |h.sent|
    && r.nextRequestSeq == |h.sent| % 0x1_0000_0000
    && (r.IsOutstanding() <==> h.demands != [])
    && (r.IsOutstanding() ==>
          && r.episode.value.damageCount == |h.demands|
          && r.episode.value.newestDamagedFrame == h.demands[|h.demands| - 1]
          && (r.episode.value.lastSentAt.Some? <==>
              h.sent != [] && h.sent[|h.sent| - 1].episode == r.episodesStarted)
          && (r.episode.value.lastSentAt.Some? ==>
              r.episode.value.lastSentAt.value == h.sent[|h.sent| - 1].at))
    && (forall i :: 0 <= i < |h.sent| ==> h.sent[i].episode <= r.episodesStarted)
    && Spaced(h.sent, r.retryInterval)
    && Honest(h.sent)
  }

  /** Episodes come in order, and two requests of one episode are at least the
      retry interval apart. */
  ghost predicate Spaced(sent: seq<Sent>, interval: nat) {
    forall i, j :: 0 <= i < j < |sent| ==>
      && sent[i].episode <= sent[j].episode
      && (sent[i].episode == sent[j].episode ==> sent[j].at - sent[i].at >= interval)
  }

  /** The i-th request numbers on, names the newest damage, and counts the episode's
      demands up to the wire's 255. */
  predicate Truthful(s: Sent, i: nat) {
    && s.request.requestSeq == i % 0x1_0000_0000 && s.request.frame == s.newest
    && s.request.coalescedCount == (if s.demands > 255 then 255 else s.demands)
    && s.request.coalescedCount >= 1
  }

  ghost predicate Honest(sent: seq<Sent>) {
    forall i :: 0 <= i < |sent| ==> Truthful(sent[i], i)
  }

  lemma SpacedExtends(sent: seq<Sent>, interval: nat, next: Sent)
    requires Spaced(sent, interval)
    requires sent != [] ==>
      var last := sent[|sent| - 1];
      && last.episode <= next.episode
      && (last.episode == next.episode ==> next.at - last.at >= interval)
    ensures Spaced(sent + [next], interval)
  {
    var k := sent + [next];
    forall i, j | 0 <= i < j < |k|
      ensures k[i].episode <= k[j].episode
      ensures k[i].episode == k[j].episode ==> k[j].at - k[i].at >= interval
    {
      if j == |sent| && i < |sent| - 1 {
        assert sent[i].episode <= sent[|sent| - 1].episode;
      }
    }
  }

  lemma HonestExtends(sent: seq<Sent>, next: Sent)
    requires Honest(sent) && Truthful(next, |sent|)
    ensures Honest(sent + [next])
  {}

  lemma StepKeepsInv(h: History, e: Event)
    requires Inv(h)
    ensures Inv(Step(h, e))
  {
    if e.Ask? {
      AskKeepsInv(h, e.now);
    }
  }

  lemma AskKeepsInv(h: History, now: int)
    requires Inv(h)
    ensures Inv(Step(h, Ask(now)))
  {
    if h.r.Due(now) {
      var k, next := DueStep(h, now);
      SpacedExtends(h.sent, h.r.retryInterval, next);
      HonestExtends(h.sent, next);
    }
  }

  /** What a due ask adds. */
  lemma DueStep(h: History, now: int) returns (k: History, next: Sent)
    requires Inv(h) && h.r.Due(now)
    ensures k == Step(h, Ask(now)) && k.demands == h.demands && k.sent == h.sent + [next]
    ensures next.at == now && next.episode == h.r.episodesStarted && Truthful(next, |h.sent|)
    ensures var e := h.r.episode.value;
            k.r == h.r.(episode := Some(e.(lastSentAt := Some(now))),
                        nextRequestSeq := (|h.sent| + 1) % 0x1_0000_0000, requestsSent := |h.sent| + 1,
                        retryRequests := k.r.retryRequests)
  {
    k := Step(h, Ask(now));
    next := k.sent[|h.sent|];
  }

  /** Every run, whatever the damage and however often it is asked: requests of
      one episode are a retry interval apart, numbered consecutively, each
      naming the newest damage and counting the demands it answers for. */
  lemma {:induction false} RunKeepsInv(retryInterval: nat, es: seq<Event>)
    ensures Inv(Run(retryInterval, es))
  {
    if es != [] {
      RunKeepsInv(retryInterval, es[..|es| - 1]);
      StepKeepsInv(Run(retryInterval, es[..|es| - 1]), es[|es| - 1]);
    }
  }

  // ----- When a request goes out, by the events -----------------------------

  /** The demands since a usable frame was last accepted. */
  function Open(es: seq<Event>): seq<nat> {
    if es == [] then []
    else
      match es[|es| - 1]
      case Demand(frame) => Open(es[..|es| - 1]) + [frame]
      case Accept => []
      case Ask(_) => Open(es[..|es| - 1])
  }

  /** When the open episode last sent a request. */
  function LastSent(interval: nat, es: seq<Event>): Option<int>
    decreases |es|, 0
  {
    if es == [] then None
    else
      var init := es[..|es| - 1];
      match es[|es| - 1]
      case Demand(_) => LastSent(interval, init)
      case Accept => None
      case Ask(now) => if Asks(interval, init, now) then Some(now) else LastSent(interval, init)
  }

  /** Damage stands unanswered, and nothing was sent for it within the interval. */
  predicate Asks(interval: nat, es: seq<Event>, now: int)
    decreases |es|, 1
  {
    Open(es) != [] && (LastSent(interval, es).Some? ==> now - LastSent(interval, es).value >= interval)
  }

  /** The recovery stands as the events say. */
  predicate Stands(r: Recovery, interval: nat, es: seq<Event>) {
    && r.retryInterval == interval
    && (Open(es) == [] ==> r.episode.None? && LastSent(interval, es).None?)
    && (Open(es) != [] ==>
          r.episode == Some(Episode(Open(es)[|Open(es)| - 1], |Open(es)|, LastSent(interval, es))))
  }

  lemma {:induction false} RunStands(retryInterval: nat, es: seq<Event>)
    ensures Stands(Run(retryInterval, es).r, if retryInterval < 1 then 1 else retryInterval, es)
  {
    if es != [] { RunStands(retryInterval, es[..|es| - 1]); }
  }

  /** In every run an ask sends exactly when damage stands unanswered, at first at once
      and then each interval, of at least one; and what it sends numbers on, names the
      newest damage, and counts all of it up to 255. */
  lemma AskIsAnswered(retryInterval: nat, es: seq<Event>, now: int)
    ensures var interval := if retryInterval < 1 then 1 else retryInterval;
            var h, damage := Run(retryInterval, es), Open(es);
            h.r.RequestDue(now).1
            == if !Asks(interval, es, now) then None
               else Some(Request(|h.sent| % 0x1_0000_0000, damage[|damage| - 1],
                                 if |damage| > 255 then 255 else |damage|))
  {
    RunStands(retryInterval, es);
    RunKeepsInv(retryInterval, es);
  }

  /** The source's own form: a record its methods update. */
  class ClientIdrRecovery {
    var recovery: Recovery

    constructor (retryInterval: nat)
      ensures recovery == Fresh(retryInterval)
    {
      recovery := Fresh(retryInterval);
    }

    /** True when the demand joined an open episode. */
    method RecordDemand(frame: nat) returns (joined: bool)
      modifies this
      ensures recovery == old(recovery).RecordDemand(frame)
      ensures joined == old(recovery).IsOutstanding()
    {
      if recovery.episode.Some? {
        var current := recovery.episode.value;
        current := current.(newestDamagedFrame := frame);
        current := current.(damageCount := current.damageCount + 1);
        recovery := recovery.(episode := Some(current));
        return true;
      }
      recovery := recovery.(episode := Some(Episode(frame, 1, None)));
      recovery := recovery.(episodesStarted := recovery.episodesStarted + 1);
      joined := false;
    }

    method RequestDue(now: int) returns (request: Option<Request>)
      modifies this
      ensures (recovery, request) == old(recovery).RequestDue(now)
    {
      if recovery.episode.None? { return None; }
      var current := recovery.episode.value;
      if current.lastSentAt.Some? {
        if now - current.lastSentAt.value < recovery.retryInterval { return None; }
        recovery := recovery.(retryRequests := recovery.retryRequests + 1);
      }
      var count := if current.damageCount > 255 then 255 else current.damageCount;
      request := Some(Request(recovery.nextRequestSeq, current.newestDamagedFrame, count));
      recovery := recovery.(episode := Some(current.(lastSentAt := Some(now))));
      recovery := recovery.(nextRequestSeq := (recovery.nextRequestSeq + 1) % 0x1_0000_0000);
      recovery := recovery.(requestsSent := recovery.requestsSent + 1);
    }

    method NoteUsableIrapAccepted()
      modifies this
      ensures recovery == old(recovery).NoteUsableIrapAccepted()
    {
      if recovery.episode.Some? {
        recovery := recovery.(episode := None, episodesCompleted := recovery.episodesCompleted + 1);
      }
    }
  }
}
