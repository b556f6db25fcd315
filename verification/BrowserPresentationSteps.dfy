/** The steps behind presentation accounting. Every promised frame inside the
    player is held by the handoff, held early, waiting in the abandoned ring or
    overwritten there; each discard, offer and pop moves promises between those
    places and loses none. */
module BrowserPresentationSteps {
  import opened Wrappers
  import opened RendererHandoff
  import opened BrowserVideoPlayout
  import opened BrowserVideoRuns
  import Decode = BrowserDecodeSteps

  // ----- Places -------------------------------------------------------------

  function Held(scheduled: map<nat, Scheduled>): set<nat> {
    set f | f in scheduled && scheduled[f].shouldPresent
  }

  function EarlyOne(early: Option<Scheduled>): multiset<nat> {
    if early.Some? then multiset{early.value.frame} else multiset{}
  }

  /** Every promised frame still inside the player, with multiplicity: held by
      the handoff, held early, waiting in the abandoned ring, or overwritten
      there. */
  function Inside(p: Playout): multiset<nat> {
    multiset(Held(p.scheduled)) + EarlyOne(p.early) + multiset(p.abandoned) + multiset(p.lost)
  }

  function FramesOf(entries: seq<Entry>): set<nat> {
    if entries == [] then {} else {entries[0].frame} + FramesOf(entries[1..])
  }

  ghost predicate Ordered(entries: seq<Entry>) {
    entries == [] ||
    (Decode.AllAbove(entries[0].frame, FramesOf(entries[1..])) && Ordered(entries[1..]))
  }

  ghost predicate SelfNamed(scheduled: map<nat, Scheduled>) {
    forall f :: f in scheduled ==> scheduled[f].frame == f
  }

  /** The queue is in frame order below `bound`; metadata lives only while the
      handoff holds the frame; an early frame already left the queue. */
  ghost predicate Shaped(p: Playout, bound: nat) {
    && p.handoff.Valid()
    && Ordered(p.handoff.entries)
    && Decode.AllBelow(FramesOf(p.handoff.entries), bound)
    && p.scheduled.Keys <= FramesOf(p.handoff.entries)
    && SelfNamed(p.scheduled)
    && (p.early.Some? ==>
          && p.early.value.frame < bound && p.early.value.shouldPresent
          && Decode.AllAbove(p.early.value.frame, FramesOf(p.handoff.entries)))
  }

  // ----- Discards -----------------------------------------------------------

  lemma AbandonAdds(p: Playout, frame: nat)
    ensures Inside(Abandon(p, frame)) == Inside(p) + multiset{frame}
  {
    if |p.abandoned| >= CAPACITY {
      assert p.abandoned == [p.abandoned[0]] + p.abandoned[1..];
    }
  }

  lemma AbandonEarlyKeeps(p: Playout)
    ensures Inside(AbandonEarly(p)) == Inside(p)
  {
    if p.early.Some? {
      AbandonAdds(p.(early := None), p.early.value.frame);
    }
  }

  function HeldOne(scheduled: map<nat, Scheduled>, frame: nat): multiset<nat> {
    if frame in scheduled && scheduled[frame].shouldPresent then multiset{frame} else multiset{}
  }

  lemma HeldWithout(scheduled: map<nat, Scheduled>, frame: nat)
    ensures multiset(Held(scheduled)) == multiset(Held(scheduled - {frame})) + HeldOne(scheduled, frame)
  {
    assert Held(scheduled - {frame}) == Held(scheduled) - {frame};
    if frame in Held(scheduled) {
      assert Held(scheduled) == Held(scheduled - {frame}) + {frame};
    }
  }

  lemma UnscheduleMoves(p: Playout, frame: nat)
    ensures Inside(p) == Inside(p.(scheduled := p.scheduled - {frame})) + HeldOne(p.scheduled, frame)
  {
    HeldWithout(p.scheduled, frame);
  }

  lemma DiscardKeeps(p: Playout, frame: nat)
    requires p.early.Some? ==> p.early.value.frame != frame
    ensures var q := Discard(p, frame);
            && Inside(q) == Inside(p)
            && q.scheduled == p.scheduled - {frame}
            && q.early == p.early && q.handoff == p.handoff
  {
    var r := p.(scheduled := p.scheduled - {frame});
    UnscheduleMoves(p, frame);
    if frame !in p.scheduled {
      assert p.scheduled - {frame} == p.scheduled;
      assert Discard(p, frame) == p;
    } else if p.scheduled[frame].shouldPresent {
      AbandonAdds(r, frame);
      assert Discard(p, frame) == Abandon(r, frame);
    } else {
      assert Discard(p, frame) == r;
    }
  }

  /** A discarded batch moves its promises to the ring, each once. */
  lemma {:induction false} DiscardAllKeeps(p: Playout, discarded: seq<Entry>)
    requires p.early.Some? ==> p.early.value.frame !in FramesOf(discarded)
    ensures var q := DiscardAll(p, discarded);
            && Inside(q) == Inside(p)
            && q.scheduled == p.scheduled - FramesOf(discarded)
            && q.early == p.early && q.handoff == p.handoff
    decreases |discarded|
  {
    if discarded == [] {
      assert p.scheduled - {} == p.scheduled;
    } else {
      DiscardKeeps(p, discarded[0].frame);
      DiscardAllKeeps(Discard(p, discarded[0].frame), discarded[1..]);
      assert (p.scheduled - {discarded[0].frame}) - FramesOf(discarded[1..])
          == p.scheduled - FramesOf(discarded);
    }
  }

  lemma AbsorbKeeps(p: Playout, o: Outcome, newest: Option<nat>)
    requires p.early.Some? ==> p.early.value.frame !in FramesOf(o.discarded)
    ensures var q := Absorb(p, o, newest);
            && Inside(q) == Inside(p)
            && q.scheduled == p.scheduled - FramesOf(o.discarded)
            && q.early == p.early && q.handoff == p.handoff
  {
    DiscardAllKeeps(p, o.discarded);
  }

  /** A flush leaves nothing scheduled, held early or queued. */
  lemma FlushEmpties(p: Playout, frame: nat)
    requires p.scheduled.Keys <= FramesOf(p.handoff.entries)
    ensures var q := Flush(p, frame);
            && Inside(q) == Inside(p)
            && q.scheduled == map[] && q.early.None?
            && q.handoff.Valid() && q.handoff.entries == []
  {
    AbandonEarlyKeeps(p);
    var q := AbandonEarly(p);
    var (h, o) := q.handoff.FailEpisode();
    AbsorbKeeps(q.(handoff := h), o, Some(frame));
    assert p.scheduled - FramesOf(o.discarded) == map[];
  }

  lemma FlushKeeps(p: Playout, frame: nat, bound: nat)
    requires Shaped(p, bound)
    ensures Shaped(Flush(p, frame), bound)
    ensures Inside(Flush(p, frame)) == Inside(p)
  {
    FlushEmpties(p, frame);
  }

  lemma ExpireKeeps(p: Playout, now: nat, bound: nat)
    requires Shaped(p, bound)
    ensures Shaped(Expire(p, now), bound)
    ensures Inside(Expire(p, now)) == Inside(p)
  {
    var (h, o) := p.handoff.Expire(now);
    assert o.discarded == [] || o.discarded == p.handoff.entries;
    AbsorbKeeps(p.(handoff := h), o, None);
    assert p.scheduled - FramesOf(o.discarded) == if o.discarded == [] then p.scheduled else map[];
  }

  // ----- Offers -------------------------------------------------------------

  lemma {:induction false} OrderedSnoc(entries: seq<Entry>, e: Entry)
    requires Ordered(entries) && Decode.AllBelow(FramesOf(entries), e.frame)
    ensures Ordered(entries + [e])
    ensures FramesOf(entries + [e]) == FramesOf(entries) + {e.frame}
  {
    if entries == [] {
      assert entries + [e] == [e];
    } else {
      OrderedSnoc(entries[1..], e);
      assert (entries + [e])[1..] == entries[1..] + [e];
    }
  }

  /** The three ways an offer ends, on entries and discards. */
  lemma OfferShapes(h: Handoff, e: Entry)
    requires h.Valid() && Ordered(h.entries) && Decode.AllBelow(FramesOf(h.entries), e.frame)
    ensures var (k, o) := h.Offer(e);
            && k.Valid() && Ordered(k.entries)
            && FramesOf(k.entries) + FramesOf(o.discarded) == FramesOf(h.entries) + {e.frame}
            && FramesOf(k.entries) !! FramesOf(o.discarded)
            && (o.accepted <==> e.frame in FramesOf(k.entries))
  {
    OrderedSnoc(h.entries, e);
    assert FramesOf([e]) == {e.frame} && Ordered([e]);
  }

  /** The player with the offer made and its discards still to absorb. */
  function Offered(p: Playout, frame: Scheduled, arrival: nat): (Playout, Outcome) {
    var (h, o) := p.handoff.Offer(Entry(frame.frame, frame.isRandomAccess, arrival));
    (p.(handoff := h,
        scheduled := if o.accepted then p.scheduled[frame.frame := frame] else p.scheduled), o)
  }

  lemma OfferAbsorbs(p: Playout, frame: Scheduled, arrival: nat)
    requires Shaped(p, frame.frame)
    ensures var (r, o) := Offered(p, frame, arrival);
            var (q, told) := OfferFrame(p, frame, arrival);
            && q == Absorb(r, o, Some(frame.frame))
            && Inside(q) == Inside(r) && q.scheduled == r.scheduled - FramesOf(o.discarded)
            && q.early == p.early && q.handoff == r.handoff
            && told == (if o.accepted then frame else frame.(shouldPresent := false))
  {
    var e := Entry(frame.frame, frame.isRandomAccess, arrival);
    OfferShapes(p.handoff, e);
    var (r, o) := Offered(p, frame, arrival);
    AbsorbKeeps(r, o, Some(frame.frame));
  }

  lemma OfferKeepsInside(p: Playout, frame: Scheduled, arrival: nat)
    requires Shaped(p, frame.frame)
    ensures var (q, told) := OfferFrame(p, frame, arrival);
            && Inside(q) == Inside(p) + (if told.shouldPresent then multiset{frame.frame} else multiset{})
            && (told.shouldPresent ==> frame.shouldPresent)
  {
    OfferAbsorbs(p, frame, arrival);
    HeldWithNew(p.scheduled, frame);
  }

  /** The queue and the metadata after an offer, without its absorbed discards. */
  lemma OfferParts(p: Playout, frame: Scheduled, arrival: nat) returns (q: Playout, was: set<nat>, kept: set<nat>)
    requires Shaped(p, frame.frame)
    ensures q == OfferFrame(p, frame, arrival).0
    ensures was == FramesOf(p.handoff.entries) && kept == FramesOf(q.handoff.entries)
    ensures q.handoff.Valid() && Ordered(q.handoff.entries) && q.early == p.early
    ensures kept <= was + {frame.frame}
    ensures q.scheduled.Keys <= kept && SelfNamed(q.scheduled)
  {
    OfferAbsorbs(p, frame, arrival);
    OfferShapes(p.handoff, Entry(frame.frame, frame.isRandomAccess, arrival));
    var (r, o) := Offered(p, frame, arrival);
    q := OfferFrame(p, frame, arrival).0;
    was, kept := FramesOf(p.handoff.entries), FramesOf(q.handoff.entries);
    assert q.scheduled.Keys == r.scheduled.Keys - FramesOf(o.discarded);
  }

  lemma OfferKeepsShape(p: Playout, frame: Scheduled, arrival: nat) returns (q: Playout)
    requires Shaped(p, frame.frame)
    ensures q == OfferFrame(p, frame, arrival).0 && Shaped(q, frame.frame + 1)
  {
    var was, kept;
    q, was, kept := OfferParts(p, frame, arrival);
  }

  lemma HeldWithNew(scheduled: map<nat, Scheduled>, frame: Scheduled)
    requires frame.frame !in scheduled
    ensures multiset(Held(scheduled[frame.frame := frame]))
         == multiset(Held(scheduled)) + (if frame.shouldPresent then multiset{frame.frame} else multiset{})
  {
    var held := Held(scheduled[frame.frame := frame]);
    if frame.shouldPresent {
      assert held == Held(scheduled) + {frame.frame};
    } else {
      assert held == Held(scheduled);
    }
  }

  // ----- Pops, drops and drains ---------------------------------------------

  function DueOne(due: Option<Scheduled>): multiset<nat> {
    if due.Some? then multiset{due.value.frame} else multiset{}
  }

  /** The front entry leaves the queue; the rest keeps its shape. */
  function Advance(p: Playout): Playout
    requires p.handoff.entries != []
  {
    p.(handoff := p.handoff.(entries := p.handoff.entries[1..]),
       scheduled := p.scheduled - {p.handoff.entries[0].frame})
  }

  lemma AdvanceKeeps(p: Playout, bound: nat)
    requires Shaped(p, bound) && p.handoff.entries != [] && p.early.None?
    ensures Shaped(Advance(p), bound)
    ensures Inside(p) == Inside(Advance(p)) + HeldOne(p.scheduled, p.handoff.entries[0].frame)
    ensures Decode.AllAbove(p.handoff.entries[0].frame, FramesOf(Advance(p).handoff.entries))
    ensures p.handoff.entries[0].frame < bound
  {
    UnscheduleMoves(p, p.handoff.entries[0].frame);
  }

  lemma NoteHandedOffKeeps(p: Playout, isRandomAccess: bool, bound: nat)
    requires Shaped(p, bound)
    ensures Shaped(NoteHandedOff(p, isRandomAccess), bound)
    ensures Inside(NoteHandedOff(p, isRandomAccess)) == Inside(p)
  {
  }

  /** A head that should be presented: popped when due, held early before that. */
  lemma PopHeadKeeps(p: Playout, now: nat, bound: nat) returns (r: (Playout, Option<Scheduled>))
    requires Shaped(p, bound) && p.early.None? && p.handoff.entries != []
    requires p.handoff.entries[0].frame in p.scheduled && p.scheduled[p.handoff.entries[0].frame].shouldPresent
    ensures r == PopQueued(p, now) && Shaped(r.0, bound)
    ensures Inside(p) == Inside(r.0) + DueOne(r.1)
    ensures r.1.Some? ==> r.1.value.presentation <= now
  {
    AdvanceKeeps(p, bound);
    var entry := p.scheduled[p.handoff.entries[0].frame];
    NoteHandedOffKeeps(Advance(p), entry.isRandomAccess, bound);
    r := PopQueued(p, now);
  }

  /** Whatever is popped was promised and inside, and is inside no longer. */
  lemma {:induction false} PopQueuedKeeps(p: Playout, now: nat, bound: nat)
    requires Shaped(p, bound) && p.early.None?
    ensures Shaped(PopQueued(p, now).0, bound)
    ensures Inside(p) == Inside(PopQueued(p, now).0) + DueOne(PopQueued(p, now).1)
    ensures PopQueued(p, now).1.Some? ==> PopQueued(p, now).1.value.presentation <= now
    decreases |p.handoff.entries|
  {
    if p.handoff.entries != [] {
      var frame := p.handoff.entries[0].frame;
      var q := Advance(p);
      if frame in p.scheduled && p.scheduled[frame].shouldPresent {
        var r := PopHeadKeeps(p, now, bound);
        return;
      }
      AdvanceKeeps(p, bound);
      if frame !in p.scheduled {
        assert q == p.(handoff := p.handoff.(entries := p.handoff.entries[1..])) by {
          assert p.scheduled - {frame} == p.scheduled;
        }
        PopQueuedKeeps(q, now, bound);
      } else {
        NoteHandedOffKeeps(q, p.scheduled[frame].isRandomAccess, bound);
        PopQueuedKeeps(NoteHandedOff(q, p.scheduled[frame].isRandomAccess), now, bound);
      }
    }
  }

  function AwaitedOne(p: Playout, frame: nat): multiset<nat> {
    if Awaits(p, frame) then multiset{frame} else multiset{}
  }

  lemma DropKeeps(p: Playout, frame: nat, bound: nat)
    requires Shaped(p, bound)
    ensures Shaped(NoteDropped(p, frame), bound)
    ensures Inside(p) == Inside(NoteDropped(p, frame)) + AwaitedOne(p, frame)
  {
    UnscheduleMoves(p, frame);
  }

  // ----- The invariant of every run -----------------------------------------

  /** Each promise is in exactly one place: as multisets, the promised frames
      are those inside the player plus those already settled. */
  ghost predicate Accounted(s: System) {
    multiset(s.promised) == Inside(s.p) + multiset(s.settled.Keys)
  }

  function Bound(s: System): nat {
    if s.expected.Some? then s.expected.value else 0
  }

  ghost predicate PresentInv(s: System) {
    && Shaped(s.p, Bound(s))
    && Decode.AllBelow(s.promised, Bound(s))
    && Accounted(s)
  }

  lemma SettleMoves(s: System, t: System, out: multiset<nat>)
    requires Accounted(s) && t.promised == s.promised
    requires Inside(s.p) == Inside(t.p) + out
    requires forall f :: f in out ==> f in t.settled
    requires t.settled.Keys == s.settled.Keys + (set f | f in out)
    ensures Accounted(t)
  {
    forall f | f in out
      ensures out[f] == 1 && f !in s.settled
    {
      assert multiset(s.promised)[f] <= 1;
      assert multiset(s.promised)[f] == Inside(t.p)[f] + out[f] + multiset(s.settled.Keys)[f];
    }
    assert multiset(t.settled.Keys) == multiset(s.settled.Keys) + out;
  }

  lemma WidenBound(p: Playout, small: nat, large: nat)
    requires Shaped(p, small) && small <= large
    ensures Shaped(p, large)
  {
  }

  /** Storing, demanding and closing a recovery leave presentation alone. */
  lemma {:induction false} EvictLeavesPresentation(p: Playout)
    ensures var q := EvictPastBound(p);
            p == q.(annexB := p.annexB, decodeOrder := p.decodeOrder, recovery := p.recovery,
                    evicted := p.evicted, undecodable := p.undecodable)
    decreases |p.decodeOrder|
  {
    if |p.annexB| > CAPACITY && p.decodeOrder != [] {
      EvictLeavesPresentation(EvictOldest(p));
    }
  }

  ghost predicate SamePresentation(p: Playout, q: Playout) {
    && q.handoff == p.handoff && q.scheduled == p.scheduled && q.early == p.early
    && q.abandoned == p.abandoned && q.lost == p.lost
  }

  lemma StoreLeavesPresentation(p: Playout, unit: DecodeUnit)
    ensures SamePresentation(p, StoreForDecode(p, unit))
  {
    EvictLeavesPresentation(Decode.Stocked(p, unit));
  }

  lemma SameIsShaped(p: Playout, q: Playout, bound: nat)
    requires Shaped(p, bound) && SamePresentation(p, q)
    ensures Shaped(q, bound) && Inside(q) == Inside(p)
  {
  }

  /** A promise joins the accounts together with its place. */
  lemma PromiseBalances(s: System, t: System, frame: nat)
    requires Accounted(s) && t.settled == s.settled && frame !in s.promised
    requires t.promised == s.promised + {frame} && Inside(t.p) == Inside(s.p) + multiset{frame}
    ensures Accounted(t)
  {
    assert multiset(t.promised) == multiset(s.promised) + multiset{frame};
  }

  lemma PromiseAdds(s: System, t: System, frame: nat, promise: bool)
    requires PresentInv(s) && Bound(s) <= frame && Bound(t) == frame + 1
    requires Shaped(t.p, frame + 1) && t.settled == s.settled
    requires t.promised == if promise then s.promised + {frame} else s.promised
    requires Inside(t.p) == Inside(s.p) + (if promise then multiset{frame} else multiset{})
    ensures PresentInv(t)
  {
    if promise {
      PromiseBalances(s, t, frame);
    } else {
      assert Accounted(t);
    }
  }

  lemma DropOneKeeps(s: System, frame: nat)
    requires PresentInv(s)
    ensures PresentInv(DropOne(s, frame))
  {
    var t := DropOne(s, frame);
    DropKeeps(s.p, frame, Bound(s));
    SettleMoves(s, t, AwaitedOne(s.p, frame));
  }

  lemma {:induction false} DropEachKeeps(s: System, frames: seq<nat>)
    requires PresentInv(s)
    ensures PresentInv(DropEach(s, frames))
    decreases |frames|
  {
    if frames != [] {
      DropOneKeeps(s, frames[0]);
      DropEachKeeps(DropOne(s, frames[0]), frames[1..]);
    }
  }

  lemma TakeKeeps(s: System)
    requires PresentInv(s) && s.queue != []
    ensures PresentInv(Take(s))
  {
    var rest := s.(queue := s.queue[1..]);
    if s.queue[0] in s.p.annexB {
      SameIsShaped(s.p, Take(s).p, Bound(s));
    } else {
      DropOneKeeps(rest, s.queue[0]);
    }
  }

  lemma DrainKeeps(s: System)
    requires PresentInv(s)
    ensures PresentInv(Drain(s))
  {
    var frames := s.p.abandoned;
    assert forall f :: f in frames <==> f in multiset(frames);
    SettleMoves(s, Drain(s), multiset(frames));
  }
}
