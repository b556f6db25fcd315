/** What a pop hands out, whatever the player holds, and what it leaves in every
    field. A pop passes over queued frames that promise the page nothing, one at a
    time, and stops at the first that does: handed out when due, held early when
    not. */
module BrowserPopAnswers {
  import opened Wrappers
  import opened RendererHandoff
  import opened BrowserVideoPlayout

  /** The entry's frame is still promised to the page. */
  predicate Promised(e: Entry, scheduled: map<nat, Scheduled>) {
    e.frame in scheduled && scheduled[e.frame].shouldPresent
  }

  /** `i` entries head the queue that promise nothing, and no more. */
  predicate Skips(entries: seq<Entry>, scheduled: map<nat, Scheduled>, i: nat) {
    && i <= |entries|
    && (forall j :: 0 <= j < i ==> !Promised(entries[j], scheduled))
    && (i < |entries| ==> Promised(entries[i], scheduled))
  }

  function Frames(entries: seq<Entry>): set<nat> {
    set e | e in entries :: e.frame
  }

  /** A random-access frame is handed off with these entries. */
  predicate KeyAmong(entries: seq<Entry>, scheduled: map<nat, Scheduled>) {
    exists e :: e in entries && e.frame in scheduled && scheduled[e.frame].isRandomAccess
  }

  /** The queue after its first `n` entries left; the wait for a random-access frame
      ends if one was handed off. */
  function Left(h: Handoff, n: nat, key: bool): Handoff
    requires n <= |h.entries|
  {
    var over := key && h.awaiting && h.pending;
    Handoff(h.capacity, h.deadline, h.entries[n..], h.awaiting && !over, h.pending && !over)
  }

  /** What a pop leaves and hands out when `i` entries promise nothing: the first
      promised frame when it is due, and that frame held early otherwise. */
  function Popped(p: Playout, i: nat, now: nat): (Playout, Option<Scheduled>)
    requires Skips(p.handoff.entries, p.scheduled, i)
  {
    var es := p.handoff.entries;
    var key := KeyAmong(es[..i], p.scheduled);
    if i == |es| then
      (p.(handoff := Left(p.handoff, i, key), scheduled := p.scheduled - Frames(es[..i])), None)
    else
      var frame := p.scheduled[es[i].frame];
      var q := p.(scheduled := p.scheduled - Frames(es[..i + 1]));
      if now < frame.presentation then
        (q.(handoff := Left(p.handoff, i + 1, key), early := Some(frame)), None)
      else
        (q.(handoff := Left(p.handoff, i + 1, key || frame.isRandomAccess)), Some(frame))
  }

  lemma {:induction false} PopQueuedIs(p: Playout, now: nat) returns (i: nat)
    ensures Skips(p.handoff.entries, p.scheduled, i) && PopQueued(p, now) == Popped(p, i, now)
    decreases |p.handoff.entries|
  {
    var es := p.handoff.entries;
    i := 0;
    if es == [] {
      assert es[..0] == [] && es[0..] == [];
      assert p.scheduled - Frames([]) == p.scheduled;
    } else if Promised(es[0], p.scheduled) {
      assert es[..0] == [] && es[..1] == [es[0]] && Frames(es[..1]) == {es[0].frame};
    } else {
      var q := Passed(p);
      if es[0].frame !in p.scheduled { assert q.scheduled == p.scheduled; }
      assert PopQueued(p, now) == PopQueued(q, now);
      var k := PopQueuedIs(q, now);
      PassedIs(p, k, now);
      i := k + 1;
    }
  }

  /** The player once its head entry, which promises nothing, was passed over. */
  function Passed(p: Playout): Playout
    requires p.handoff.entries != []
  {
    var frame := p.handoff.entries[0].frame;
    var key := frame in p.scheduled && p.scheduled[frame].isRandomAccess;
    p.(handoff := Left(p.handoff, 1, key), scheduled := p.scheduled - {frame})
  }

  lemma PassedIs(p: Playout, k: nat, now: nat)
    requires p.handoff.entries != [] && !Promised(p.handoff.entries[0], p.scheduled)
    requires Skips(Passed(p).handoff.entries, Passed(p).scheduled, k)
    ensures Skips(p.handoff.entries, p.scheduled, k + 1)
    ensures Popped(p, k + 1, now) == Popped(Passed(p), k, now)
  {
    var es, q := p.handoff.entries, Passed(p);
    forall j | 0 <= j < |es[1..]|
      ensures Promised(es[1..][j], q.scheduled) <==> Promised(es[1..][j], p.scheduled)
    {}
    FramesSplit(es, k, p.scheduled);
    KeySplit(es, k, p.scheduled);
    if k < |es| - 1 { FramesSplit(es, k + 1, p.scheduled); }
  }

  lemma FramesSplit(es: seq<Entry>, k: nat, scheduled: map<nat, Scheduled>)
    requires k < |es|
    ensures scheduled - {es[0].frame} - Frames(es[1..][..k]) == scheduled - Frames(es[..k + 1])
  {
    assert es[..k + 1] == [es[0]] + es[1..][..k];
    assert Frames(es[..k + 1]) == {es[0].frame} + Frames(es[1..][..k]);
  }

  lemma KeySplit(es: seq<Entry>, k: nat, scheduled: map<nat, Scheduled>)
    requires k < |es|
    ensures KeyAmong(es[..k + 1], scheduled)
            <==> (es[0].frame in scheduled && scheduled[es[0].frame].isRandomAccess)
                 || KeyAmong(es[1..][..k], scheduled - {es[0].frame})
  {
    var all, rest := es[..k + 1], es[1..][..k];
    assert all == [es[0]] + rest;
    if e :| e in all && e.frame in scheduled && scheduled[e.frame].isRandomAccess && e.frame != es[0].frame {
      assert e in rest;
    }
  }

  /** Whatever the player holds, a pop hands out the early frame once it is due, and
      nothing before; with none it passes over what promises nothing, and the first
      promised frame is handed out when due and held early otherwise. */
  lemma PopAnswers(p: Playout, now: nat) returns (i: nat)
    ensures Skips(p.handoff.entries, p.scheduled, i)
    ensures PopDue(p, now)
            == if p.early.None? then Popped(p, i, now)
               else if now < p.early.value.presentation then (p, None)
               else (p.(early := None, handoff := Left(p.handoff, 0, p.early.value.isRandomAccess)), p.early)
  {
    i := PopQueuedIs(p, now);
    assert p.handoff.entries[0..] == p.handoff.entries;
  }
}
