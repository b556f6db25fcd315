/** Session ownership over every interleaving of user actions, completions,
    policy actions and session events. */
module SessionOwnership {
  import opened Wrappers
  import opened ConnectionModel
  import opened OwnershipSteps

  // ----- The theorems -------------------------------------------------------

  lemma {:induction false} RunKeeps(steps: seq<Step>)
    ensures Owned(Run(steps))
  {
    if steps != [] {
      var m, s := Run(steps[..|steps| - 1]), steps[|steps| - 1];
      RunKeeps(steps[..|steps| - 1]);
      var u := TurnKeeps(m, s.turn, s.now, s.oracle);
    }
  }

  /** In every run every session ever built is exactly one of dialing, attached
      or ended, and was ended exactly as often: not while live, once when not. */
  lemma SessionsOwnedOnce(steps: seq<Step>, id: nat)
    requires id < |Run(steps).sessions|
    ensures var m := Run(steps);
            Count(m.dialing == Some(id)) + Count(m.attached == Some(id)) + m.sessions[id].endings == 1
  {
    RunKeeps(steps);
    assert Standing(Run(steps), id);
  }

  /** In every run no event of an abandoned or detached session is applied, and
      every event of the owned one is. An ended session's events are applied only
      when its own dial failed or came back to no owner, no session was built
      after it, and none is dialing or attached. */
  lemma EventsAreFenced(steps: seq<Step>, id: nat)
    requires id < |Run(steps).sessions|
    ensures var m := Run(steps);
            var fate := m.sessions[id].fate;
            && (fate.Abandoned? || fate.Detached? ==> !Applies(m, id))
            && (m.dialing == Some(id) || m.attached == Some(id) ==> Applies(m, id))
            && (!Live(fate) && Applies(m, id) ==>
                  && (fate.FailedDial? || fate.Orphaned?)
                  && id == |m.sessions| - 1 && m.dialing.None? && m.attached.None?)
  {
    RunKeeps(steps);
    var m := Run(steps);
    assert Standing(m, id);
    if Applies(m, id) {
      NewestApplies(m, id);
      if m.dialing.Some? { assert Standing(m, m.dialing.value); }
      if m.attached.Some? { assert Standing(m, m.attached.value); }
    }
  }

  lemma NewestApplies(m: Model, id: nat)
    requires Owned(m) && id < |m.sessions| && Applies(m, id)
    ensures id == |m.sessions| - 1
    ensures forall i :: 0 <= i < |m.sessions| && m.sessions[i].epoch == m.epoch ==> i == id
  {
    assert Standing(m, |m.sessions| - 1);
  }

  /** What such a late event does: an end waits and a poisoning is marked, for the
      next session built to clear; a state change is one more beat of the policy.
      Nothing is attached, ended again, streamed or failed by it. */
  lemma LateEventIsHarmless(steps: seq<Step>, id: nat, e: Event, now: nat, oracle: Oracle)
    requires id < |Run(steps).sessions| && !Live(Run(steps).sessions[id].fate) && Applies(Run(steps), id)
    ensures var m := Run(steps);
            var t := Take(m, Delivered(id, e), now, oracle);
            && (e.StateChanged? ==> t == RoamingInput(m, Answered, oracle).0)
            && (!e.StateChanged? ==>
                  && t == m.(pendingTerminal := t.pendingTerminal, poisoned := t.poisoned)
                  && MakeSession(t) == MakeSession(m))
  {
    EventsAreFenced(steps, id);
  }

  /** A first connect whose identity is found: its first dial is out. */
  lemma FirstDial() returns (m: Model)
    ensures m == Take(Take(Start, UserConnects(true), 0, []), LookupDone(0, true), 0, [[Dial(true, true)]])
    ensures m == Model(Connecting, 2, 1, [Session(1, 2, Dialing, 0, false)], None, Some(0), true, None, false,
                       [], [], [], 0)
  {
    var m1 := Take(Start, UserConnects(true), 0, []);
    assert m1.lookups == [1] && m1.generation == 1;
    var m0 := AdvanceLifecycle(m1.(lookups := [])).(roaming := true);
    assert [Dial(true, true)][1..] == [];
    m := Take(m1, LookupDone(0, true), 0, [[Dial(true, true)]]);
    assert m == RunAction(m0, Dial(true, true), []).0;
  }

  /** And there is one: the fence still lets a session's events through after its
      own dial failed. */
  lemma FailedDialIsNotFenced()
    ensures var m1 := Take(Start, UserConnects(true), 0, []);
            var m2 := Take(m1, LookupDone(0, true), 0, [[Dial(true, true)]]);
            var m3 := Take(m2, DialDone(0, Some(Unanswered)), 0, []);
            && |m3.sessions| == 1 && m3.sessions[0].fate.FailedDial? && Applies(m3, 0)
            && Take(m3, Delivered(0, Closed(ShuttingDown)), 0, []).pendingTerminal == Some(Closed(ShuttingDown))
  {
    var m2 := FirstDial();
  }

  /** The hold is exact in every run none of whose turns leaks. */
  ghost predicate LeakFree(steps: seq<Step>)
    decreases |steps|
  {
    steps == [] ||
    var init := steps[..|steps| - 1];
    LeakFree(init) && !Leaks(Run(init), steps[|steps| - 1].turn)
  }

  lemma {:induction false} HoldIsExact(steps: seq<Step>)
    requires LeakFree(steps)
    ensures HoldExact(Run(steps))
  {
    if steps != [] {
      var m, s := Run(steps[..|steps| - 1]), steps[|steps| - 1];
      HoldIsExact(steps[..|steps| - 1]);
      RunKeeps(steps[..|steps| - 1]);
      var u := TurnKeeps(m, s.turn, s.now, s.oracle);
    }
  }

  /** Exactly so: from an exact hold, a turn keeps it exact unless it leaks. */
  lemma HoldBreaksExactlyOnLeaks(m: Model, t: Turn, now: nat, oracle: Oracle)
    requires Owned(m) && HoldExact(m) && Enabled(m, t)
    ensures HoldExact(Take(m, t, now, oracle)) <==> !Leaks(m, t)
  {
    var u := TurnKeeps(m, t, now, oracle);
  }

  // ----- Connects from an idle window ---------------------------------------

  /** Connects start only from an idle window that does not stream. */
  ghost predicate ConnectsFromIdle(steps: seq<Step>)
    decreases |steps|
  {
    steps == [] ||
    var init := steps[..|steps| - 1];
    && ConnectsFromIdle(init)
    && (steps[|steps| - 1].turn.UserConnects? ==> Idle(Run(init)) && !Run(init).phase.Streaming?)
  }

  lemma {:induction false} IdleConnectsFence(steps: seq<Step>)
    requires ConnectsFromIdle(steps)
    ensures LookupsFenced(Run(steps)) && DialAnswers(Run(steps)) && LeakFree(steps)
  {
    if steps != [] {
      var m, s := Run(steps[..|steps| - 1]), steps[|steps| - 1];
      IdleConnectsFence(steps[..|steps| - 1]);
      RunKeeps(steps[..|steps| - 1]);
      if Enabled(m, s.turn) {
        match s.turn
        case UserConnects(paired) =>
        case LookupDone(i, found) => LookupFences(m, i, found, s.oracle);
        case _ => OtherTurnsFence(m, s.turn, s.now, s.oracle);
      }
    }
  }

  /** So the hold is exact whenever connects start from an idle window. */
  lemma HoldIsExactFromIdle(steps: seq<Step>)
    requires ConnectsFromIdle(steps)
    ensures HoldExact(Run(steps))
  {
    IdleConnectsFence(steps);
    HoldIsExact(steps);
  }

  /** And no dial is stranded: over every run whose connects start from an idle
      window, the dial a living policy awaits will return, and its return is put to
      that policy: adopted and established, or failed and answered, short of an error
      that ends a first connect for good. */
  lemma NoDialIsStranded(steps: seq<Step>, id: nat, error: Option<DialError>, now: nat, oracle: Oracle)
    requires ConnectsFromIdle(steps) && Run(steps).roaming && Run(steps).dialing == Some(id)
    ensures id < |Run(steps).sessions| && Enabled(Run(steps), DialDone(id, error))
    ensures var m := Run(steps);
            var r := m.(sessions := m.sessions[id := m.sessions[id].(returned := true)], dialing := None);
            Take(m, DialDone(id, error), now, oracle) ==
              match error
              case None => Adopt(r, id, now, oracle).0
              case Some(why) =>
                var f := EndOne(r, id, FailedDial);
                if m.phase.Connecting? && !why.Unanswered? then EndLyteSession(f, true)
                else RoamingInput(f, Answered, oracle).0
  {
    IdleConnectsFence(steps);
    RunKeeps(steps);
    assert Standing(Run(steps), id);
  }

  /** A connect over a live policy strands its dial: the dial is abandoned, the new
      identity is not found, and the policy lives on with no dial, scan or lookup of
      its generation out; the abandoned dial's return is put to nobody. */
  lemma ConnectingTwiceStrands(error: Option<DialError>, oracle: Oracle)
    ensures var m1 := Take(Start, UserConnects(true), 0, []);
            var m2 := Take(m1, LookupDone(0, true), 0, [[Dial(true, true)]]);
            var m3 := Take(m2, UserConnects(true), 0, []);
            var m4 := Take(m3, LookupDone(0, false), 0, []);
            && m2.roaming && m2.dialing == Some(0) && DialAnswers(m2)
            && m4.roaming && m4.dialing.None? && m4.attached.None? && m4.scans == [] && m4.lookups == []
            && Enabled(m4, DialDone(0, error))
            && Take(m4, DialDone(0, error), 0, oracle)
               == m4.(sessions := m4.sessions[0 := m4.sessions[0].(returned := true)])
  {
    var m2 := FirstDial();
    var m3 := Take(m2, UserConnects(true), 0, []);
    assert m3.lookups == [3] && m3.generation == 3 && m3.roaming && m3.dialing.None?;
  }

  /** A session whose end arrived during its own dial is never shown: adopting
      it under a standing policy leaves nothing attached. */
  lemma DeadOnArrivalIsNotAttached(m: Model, id: nat, now: nat, oracle: Oracle)
    requires Owned(m) && id < |m.sessions| && m.dialing == Some(id) && m.attached.None? && m.roaming
    requires m.pendingTerminal.Some? && EndsSession(m.pendingTerminal.value)
    requires m.sessions[id].generation == m.generation
    ensures DialReturns(m, id, None, now, oracle).0.attached.None?
  {
    assert Standing(m, id);
    var t := AdoptKeeps(m, id, now, oracle);
  }

  /** Disconnect ends everything at once: whatever stood, nothing is attached,
      dialing or hunting after it. */
  lemma DisconnectEndsAll(steps: seq<Step>, now: nat, oracle: Oracle)
    ensures var m := Take(Run(steps), UserDisconnects, now, oracle);
            && m.attached.None? && m.dialing.None? && !m.roaming
            && (forall id {:trigger m.sessions[id]} :: 0 <= id < |m.sessions| ==> m.sessions[id].endings == 1)
  {
    RunKeeps(steps);
    var t := DisconnectKeeps(Run(steps));
    forall id | 0 <= id < |t.sessions|
      ensures t.sessions[id].endings == 1
    {
      assert Standing(t, id);
    }
  }

  /** Connecting again while still connecting is not enough: the old policy's
      dial can open the stream before the new identity lookup fails, and the
      failure screen then stands over a hold nobody gives back. */
  lemma ConnectingTwiceLeaks()
    ensures var m1 := Take(Start, UserConnects(true), 0, []);
            var m2 := Take(m1, LookupDone(0, true), 0, []);
            var m3 := Take(m2, UserConnects(true), 0, []);
            var m4 := Take(m3, PolicyTicks, 0, [[Dial(true, true)]]);
            var m5 := Take(m4, DialDone(0, None), 0, []);
            var m6 := Take(m5, LookupDone(0, false), 0, []);
            && !m2.phase.Streaming? && m5.phase.Streaming? && HoldExact(m5)
            && m6.phase.Failed? && m6.holds == 1
  {
    var m1 := Take(Start, UserConnects(true), 0, []);
    var m2 := Take(m1, LookupDone(0, true), 0, []);
    var m3 := Take(m2, UserConnects(true), 0, []);
    assert m3.roaming && m3.generation == 3 && m3.lookups == [3] && m3.sessions == [];
    var m4 := Take(m3, PolicyTicks, 0, [[Dial(true, true)]]);
    assert [Dial(true, true)][1..] == [];
    assert m4 == RunAction(m3, Dial(true, true), []).0;
  }
}
