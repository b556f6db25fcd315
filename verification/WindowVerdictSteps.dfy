/** What a turn may leave of a window, in its fields: a vacant window, one that is
    over, one that lost its session and hunts, one with a dial out, one that shows
    the session it awaited; and the model's own ends, completions and answers as
    those. */
module WindowVerdictSteps {
  import opened Wrappers
  import opened ConnectionModel
  import opened OwnershipSteps
  import opened SessionOwnership

  // ----- Three things a turn may leave ---------------------------------------

  /** Every session as it stands once the live one, if any, got its one end. */
  function Closing(m: Model): seq<Session> {
    seq(|m.sessions|, i requires 0 <= i < |m.sessions| =>
      if m.attached == Some(i) then m.sessions[i].(fate := Detached, endings := 1)
      else if m.dialing == Some(i) then m.sessions[i].(fate := Abandoned, endings := 1)
      else m.sessions[i])
  }

  /** The same window with no session: its events are fenced off. */
  function Vacant(m: Model): Model {
    m.(sessions := Closing(m), attached := None, dialing := None,
       epoch := m.epoch + Count(m.attached.Some? || m.dialing.Some?))
  }

  /** The window over: no session, no policy, the hold given back, and whatever
      was still out belongs to a generation that passed. */
  function Over(m: Model, phase: Phase): Model {
    Vacant(m).(phase := phase, roaming := false, generation := m.generation + 1,
               holds := m.holds - Count(m.phase.Streaming?))
  }

  /** A failure that finds neither a session nor a policy has nothing to end. */
  function GivenUp(m: Model): Model {
    if m.attached.None? && !m.roaming then m else Over(m, Failed)
  }

  /** The attached session lost, and the window kept; a dial in flight stays. */
  function Lost(m: Model): Model {
    if m.attached.None? then m else Vacant(m)
  }

  /** The dial in flight, if any, ended, and an attached session kept. */
  function Undialed(m: Model): Model {
    if m.attached.None? then Vacant(m) else m
  }

  // ----- The three, by the model's own ends ----------------------------------

  /** At most one session is live, and it was never ended. */
  predicate Tidy(m: Model) {
    && (m.attached.Some? ==>
          m.attached.value < |m.sessions| && m.dialing.None? && m.sessions[m.attached.value].endings == 0)
    && (m.dialing.Some? ==> m.dialing.value < |m.sessions| && m.sessions[m.dialing.value].endings == 0)
  }

  lemma Reached(steps: seq<Step>) returns (m: Model)
    ensures m == Run(steps) && Tidy(m)
    ensures m.attached.Some? ==> Applies(m, m.attached.value)
    ensures m.dialing.Some? ==> Applies(m, m.dialing.value) && !m.sessions[m.dialing.value].returned
  {
    RunKeeps(steps);
    m := Run(steps);
    if m.attached.Some? { assert Standing(m, m.attached.value); }
    if m.dialing.Some? { assert Standing(m, m.dialing.value); }
  }

  lemma LostIs(m: Model)
    requires Tidy(m)
    ensures Detach(m) == Lost(m)
  {
    assert m.attached.Some? ==> Detach(m).sessions == Closing(m);
  }

  lemma AbandonedIs(m: Model)
    requires Tidy(m)
    ensures AbandonDial(m) == Undialed(m)
  {
    assert m.attached.None? ==> AbandonDial(m).sessions == Closing(m);
  }

  lemma EndIs(m: Model, failed: bool)
    requires Tidy(m)
    ensures EndLyteSession(m, failed)
            == if m.attached.None? && !m.roaming then m else Over(m, if failed then Failed else PickHost)
  {
    if m.attached.Some? {
      AttachedEndIs(m, failed);
    } else {
      AbandonedIs(m);
    }
  }

  lemma AttachedEndIs(m: Model, failed: bool)
    requires Tidy(m) && m.attached.Some?
    ensures EndLyteSession(m, failed) == Over(m, if failed then Failed else PickHost)
  {
    var n := StopRoaming(m);
    LostIs(n);
    assert Closing(n) == Closing(m);
  }

  // ----- Events of the attached session --------------------------------------

  lemma DeliveredIs(m: Model, id: nat, e: Event, now: nat, oracle: Oracle)
    requires m.attached == Some(id) && id < |m.sessions| && Applies(m, id)
    ensures Take(m, Delivered(id, e), now, oracle)
            == HandleEvent(m, e, now, oracle).0
  {}

  /** A window that hunts: what its policy says on a beat, once the session is lost. */
  function Hunt(m: Model, now: nat, oracle: Oracle): Model {
    Take(Lost(m), PolicyTicks, now, oracle)
  }

  lemma LossIs(m: Model, now: nat, oracle: Oracle)
    requires Tidy(m)
    ensures BeginRoamingAfterLoss(m, oracle).0 == ReconnectNow(m, oracle).0
    ensures BeginRoamingAfterLoss(m, oracle).0 == if m.roaming then Hunt(m, now, oracle) else m
  {
    LostIs(m);
  }

  lemma QuietBeat(m: Model, now: nat, oracle: Oracle)
    requires oracle == [] || oracle[0] == []
    ensures Take(m, PolicyTicks, now, oracle) == m
  {
    if m.roaming && oracle != [] {
      assert RunActions(m, [], oracle[1..]) == (m, oracle[1..]);
    }
  }

  /** Every end is a minute past. */
  predicate AllPast(ends: seq<nat>, now: nat) {
    forall at :: at in ends ==> now >= at + 60_000_000
  }

  lemma PoisonedIs(m: Model, now: nat, oracle: Oracle)
    requires Tidy(m) && m.attached.Some?
    ensures var first := AllPast(m.poisonedEnds, now);
            var f := m.(poisonedEnds := [now]);
            EndAfterPoisonedStream(m, now, oracle).0
            == if !first then Over(m.(poisonedEnds := []), Failed)
               else if m.roaming then Hunt(f, now, oracle)
               else f
  {
    RecentIs(m.poisonedEnds, now);
    var recent := Recent(m.poisonedEnds, now);
    if recent == [] {
      assert recent + [now] == [now];
      LossIs(m.(poisonedEnds := [now]), now, oracle);
    } else {
      EndIs(m.(poisonedEnds := []), true);
    }
  }

  lemma {:induction false} RecentIs(ends: seq<nat>, now: nat)
    ensures Recent(ends, now) == [] <==> AllPast(ends, now)
  {
    if ends != [] {
      RecentIs(ends[1..], now);
      assert ends[0] in ends && forall at :: at in ends ==> at == ends[0] || at in ends[1..];
      assert forall at :: at in ends[1..] ==> at in ends;
    }
  }

  // ----- The policy's answers ------------------------------------------------

  /** A window with a dial out: built under an epoch of its own, no early end and no
      poisoning met yet. */
  function Dialed(m: Model): Model {
    m.(epoch := m.epoch + 1, pendingTerminal := None, poisoned := false, dialing := Some(|m.sessions|),
       sessions := m.sessions + [Session(m.epoch + 1, m.generation, Dialing, 0, false)])
  }

  lemma TickIs(m: Model, actions: seq<Action>, now: nat, oracle: Oracle)
    requires m.roaming
    ensures Take(m, PolicyTicks, now, [actions] + oracle) == RunActions(m, actions, oracle).0
  {
    assert ([actions] + oracle)[1..] == oracle;
  }

  lemma OneAction(m: Model, action: Action, now: nat, oracle: Oracle)
    requires m.roaming
    ensures Take(m, PolicyTicks, now, [[action]] + oracle) == RunAction(m, action, oracle).0
  {
    TickIs(m, [action], now, oracle);
    var (t, rest) := RunAction(m, action, oracle);
    assert [action][1..] == [] && RunActions(t, [], rest) == (t, rest);
  }

  // ----- Completions ---------------------------------------------------------

  /** The session's start completed: with a fate when this turn decides it. */
  function Returned(m: Model, id: nat, fate: Fate, endings: nat): Model
    requires id < |m.sessions|
  {
    m.(sessions := m.sessions[id := m.sessions[id].(returned := true, fate := fate, endings := endings)])
  }

  lemma FailedIs(m: Model, id: nat, why: DialError, now: nat, oracle: Oracle) returns (f: Model)
    requires Tidy(m) && m.dialing == Some(id) && !m.sessions[id].returned
    ensures f == Returned(m, id, FailedDial, 1).(dialing := None)
    ensures Take(m, DialDone(id, Some(why)), now, oracle)
            == if m.sessions[id].generation != m.generation then f else DialFailed(f, why, oracle).0
  {
    f := Returned(m, id, FailedDial, 1).(dialing := None);
    var r := m.sessions[id := m.sessions[id].(returned := true)];
    assert f.sessions == r[id := r[id].(fate := FailedDial, endings := 1)];
  }

  /** The awaited session of another window, or of one no longer vacant: ended once. */
  function Unowned(m: Model, id: nat): Model
    requires id < |m.sessions|
  {
    Returned(m, id, Orphaned, 1).(dialing := None)
  }

  /** The window with the session it awaited: the first starts the stream and takes
      the hold, and an early end is no longer waiting. */
  function Showing(m: Model, id: nat): Model
    requires id < |m.sessions|
  {
    Returned(m, id, Attached, 0).(
      dialing := None, attached := Some(id), pendingTerminal := None,
      phase := if m.phase.Connecting? then Streaming else m.phase,
      holds := m.holds + Count(m.phase.Connecting?))
  }

  /** The end a session met during its own start, handled now: as if it came now,
      but its own teardown, unless the stream was poisoned, as a loss. */
  function Replayed(m: Model, id: nat, early: Option<Event>, now: nat, oracle: Oracle): Model {
    match early
    case None => m
    case Some(e) =>
      if !(e.Closed? && e.reason.LocalTeardown?) || m.poisoned then Take(m, Delivered(id, e), now, oracle)
      else if m.roaming then Hunt(m, now, oracle)
      else m
  }

  lemma OrphanIs(m: Model, id: nat, now: nat, oracle: Oracle)
    requires Tidy(m) && m.dialing == Some(id) && !m.sessions[id].returned
    requires m.sessions[id].generation != m.generation
    ensures Take(m, DialDone(id, None), now, oracle) == Unowned(m, id)
  {
    var r := m.sessions[id := m.sessions[id].(returned := true)];
    assert Unowned(m, id).sessions == r[id := r[id].(fate := Orphaned, endings := 1)];
  }

  lemma AdoptIs(m: Model, id: nat, now: nat, oracle: Oracle)
    requires Tidy(m) && m.dialing == Some(id) && !m.sessions[id].returned && m.attached.None?
    requires m.sessions[id].generation == m.generation && Applies(m, id)
    ensures var c := Showing(m, id).(pendingTerminal := m.pendingTerminal);
            && Tidy(c) && Applies(c, id)
            && Take(m, DialDone(id, None), now, oracle) == ReplayPendingTerminal(c, now, oracle).0
  {
    var r := m.(sessions := m.sessions[id := m.sessions[id].(returned := true)], dialing := None);
    assert Take(m, DialDone(id, None), now, oracle) == Adopt(r, id, now, oracle).0;
    var sessions := r.sessions[id := r.sessions[id].(fate := Attached)];
    assert sessions == Showing(m, id).sessions;
    ShowingIs(r, id, sessions, now, oracle);
  }

  lemma ShowingIs(r: Model, id: nat, sessions: seq<Session>, now: nat, oracle: Oracle)
    requires id < |r.sessions| && sessions == r.sessions[id := r.sessions[id].(fate := Attached)]
    ensures var c := r.(sessions := sessions, attached := Some(id),
                        phase := if r.phase.Connecting? then Streaming else r.phase,
                        holds := r.holds + Count(r.phase.Connecting?));
            Adopt(r, id, now, oracle) == ReplayPendingTerminal(c, now, oracle)
  {
    var b := r.(sessions := sessions, attached := Some(id));
    assert RoamingInput(b, Established, oracle) == (b, oracle);
  }

  lemma ReplayIs(c: Model, id: nat, now: nat, oracle: Oracle)
    requires Tidy(c) && c.attached == Some(id) && Applies(c, id)
    ensures ReplayPendingTerminal(c, now, oracle).0
            == Replayed(c.(pendingTerminal := None), id, c.pendingTerminal, now, oracle)
  {
    var a := c.(pendingTerminal := None);
    LossIs(a, now, oracle);
    if c.pendingTerminal.Some? { DeliveredIs(a, id, c.pendingTerminal.value, now, oracle); }
  }

  lemma LookupIs(m: Model, t: Model, i: nat, found: bool, now: nat, oracle: Oracle)
    requires i < |m.lookups| && t == m.(lookups := m.lookups[..i] + m.lookups[i + 1..])
    ensures Take(m, LookupDone(i, found), now, oracle)
            == if m.lookups[i] != m.generation then t
               else if !found then t.(phase := Failed)
               else Take(t.(generation := m.generation + 1, roaming := true), PolicyTicks, now, oracle)
  {
    assert t == m.(lookups := Remove(m.lookups, i));
    var f := t.(generation := m.generation + 1, roaming := true);
    assert f == AdvanceLifecycle(t).(roaming := true);
    TickTakes(f, now, oracle);
  }

  lemma TickTakes(m: Model, now: nat, oracle: Oracle)
    ensures Take(m, PolicyTicks, now, oracle) == RoamingInput(m, Answered, oracle).0
  {}

  // ----- The human -----------------------------------------------------------

  /** The window after a connect: `a` is what it kept. */
  function Connected(m: Model, a: Model, paired: bool): Model {
    var t := a.(generation := m.generation + 1);
    if paired then t.(phase := Connecting, poisonedEnds := [], lookups := m.lookups + [m.generation + 1])
    else t.(phase := Failed)
  }

  lemma ConnectIs(m: Model, a: Model, paired: bool, now: nat, oracle: Oracle)
    requires Tidy(m) && a == Undialed(m)
    ensures Take(m, UserConnects(paired), now, oracle) == Connected(m, a, paired)
  {
    AbandonedIs(m);
  }

  lemma DisconnectIs(m: Model, a: Model, now: nat, oracle: Oracle)
    requires Tidy(m) && a == Undialed(m)
    ensures var t := a.(generation := m.generation + 1,
                        phase := if m.phase.Connecting? then PickHost else m.phase);
            Take(m, UserDisconnects, now, oracle) == EndLyteSession(t, false)
  {
    AbandonedIs(m);
    PickedIs(m, a);
  }

  lemma PickedIs(m: Model, a: Model)
    requires a == AbandonDial(m) && a.phase == m.phase && a.generation == m.generation
    ensures Disconnect(m)
            == EndLyteSession(a.(generation := m.generation + 1,
                                 phase := if m.phase.Connecting? then PickHost else m.phase), false)
  {
    var t := AdvanceLifecycle(a);
    if m.phase.Connecting? {
      assert t.(phase := PickHost) == a.(generation := m.generation + 1, phase := PickHost);
    } else {
      assert t == a.(generation := m.generation + 1, phase := m.phase);
    }
  }

  /** To end what a dial's end left is to end it all. */
  lemma UndialedOver(m: Model, t: Model)
    requires Tidy(m)
    requires t == Undialed(m).(generation := m.generation + 1,
                               phase := if m.phase.Connecting? then PickHost else m.phase)
    ensures Over(t, PickHost) == Over(m, PickHost).(generation := m.generation + 2)
  {
    assert Closing(t) == Closing(m);
  }
}
