/** The bounded queue policy behind a renderer handoff: pressure or failure
    discards the whole dependency episode and waits for a random-access frame.
    A value, held and replaced by its owner. */
module RendererHandoff {
  datatype Entry = Entry(frame: nat, isRandomAccess: bool, submitted: nat)

  datatype Outcome = Outcome(accepted: bool, recoveryRequested: bool, discarded: seq<Entry>)

  datatype Handoff = Handoff(
    capacity: nat, deadline: nat,
    entries: seq<Entry>, awaiting: bool, pending: bool)
  {
    /** Waiting with no random-access frame pending, nothing is queued. */
    predicate Valid() {
      awaiting && !pending ==> entries == []
    }

    predicate Expired(now: nat) {
      entries != [] && Age(entries[0], now) >= deadline
    }

    function Offer(incoming: Entry): (Handoff, Outcome) {
      if awaiting && !pending then
        if !incoming.isRandomAccess then
          (this, Outcome(false, false, [incoming]))
        else
          (this.(pending := true, entries := entries + [incoming]), Outcome(true, false, []))
      else if |entries| >= capacity || Expired(incoming.submitted) then
        if incoming.isRandomAccess then
          (this.(entries := [incoming]), Outcome(true, false, entries))
        else
          var (h, starts) := this.(entries := []).AwaitRandomAccess();
          (h, Outcome(false, starts, entries + [incoming]))
      else
        (this.(entries := entries + [incoming]), Outcome(true, false, []))
    }

    function FailEpisode(): (Handoff, Outcome) {
      var (h, starts) := this.(entries := []).AwaitRandomAccess();
      (h, Outcome(false, starts, entries))
    }

    function Expire(now: nat): (Handoff, Outcome) {
      if Expired(now) then FailEpisode() else (this, Outcome(false, false, []))
    }

    /** Enters the wait; the flag says whether that starts a recovery. */
    function AwaitRandomAccess(): (Handoff, bool) {
      (this.(awaiting := true, pending := false), !awaiting || pending)
    }

    function NoteRandomAccessEnqueued(): Handoff {
      if awaiting && pending then this.(awaiting := false, pending := false) else this
    }
  }

  function Age(e: Entry, now: nat): nat {
    if now > e.submitted then now - e.submitted else 0
  }

  /** An offer loses nothing and invents nothing: what it discards followed by
      what it keeps is what was queued followed by what came in. */
  lemma OfferConserves(h: Handoff, incoming: Entry)
    requires h.Valid()
    ensures h.Offer(incoming).1.discarded + h.Offer(incoming).0.entries == h.entries + [incoming]
  {
    assert h.entries == [] ==> [incoming] + h.entries == h.entries + [incoming];
  }

  /** A refusal empties the queue and discards the newcomer; an accepted newcomer
      is the tail; and the queue keeps within its capacity. */
  lemma OfferKeeps(h: Handoff, incoming: Entry)
    requires h.Valid()
    ensures var (k, o) := h.Offer(incoming);
            && k.Valid()
            && (if o.accepted then k.entries != [] && k.entries[|k.entries| - 1] == incoming
                else k.entries == [])
            && (o.recoveryRequested ==> k.awaiting && !k.pending)
            && (h.capacity > 0 && |h.entries| <= h.capacity ==> |k.entries| <= h.capacity)
  {}
}
