/** What each turn makes of the window, over every reachable window, in its fields:
    which events end it, which only lose its session, and which pass. */
module WindowVerdicts {
  import opened Wrappers
  import opened ConnectionModel
  import opened WindowVerdictSteps

  // ----- Events of the attached session --------------------------------------

  /** A takeover is a decision the window honours: it ends, whatever the policy says. */
  lemma TakenOverEnds(steps: seq<Step>, id: nat, now: nat, oracle: Oracle)
    requires Run(steps).attached == Some(id)
    ensures var t := Take(Run(steps), Delivered(id, Closed(TakenOver)), now, oracle);
            && t == Over(Run(steps), Failed)
            && t.phase.Failed? && !t.roaming && t.attached.None? && t.dialing.None?
            && id < |t.sessions| && t.sessions[id].fate.Detached? && t.sessions[id].endings == 1
  {
    var m := Reached(steps);
    DeliveredIs(m, id, Closed(TakenOver), now, oracle);
    EndIs(m, true);
  }

  /** A host that restarts or falls silent costs the session and not the window: a
      living policy hunts for it, and while that asks for nothing the phase, the
      policy and the hold stay as they were. Without a policy nothing happens. */
  lemma HostLossHunts(steps: seq<Step>, id: nat, reason: CloseReason, now: nat, oracle: Oracle)
    requires Run(steps).attached == Some(id) && (reason.ShuttingDown? || reason.LivenessTimeout?)
    ensures var m := Run(steps);
            var t := Take(m, Delivered(id, Closed(reason)), now, oracle);
            && t == (if m.roaming then Hunt(m, now, oracle) else m)
            && (m.roaming && (oracle == [] || oracle[0] == []) ==> t == Vacant(m))
  {
    var m := Reached(steps);
    DeliveredIs(m, id, Closed(reason), now, oracle);
    LossIs(m, now, oracle);
    if m.roaming && (oracle == [] || oracle[0] == []) { QuietBeat(Vacant(m), now, oracle); }
  }

  /** Failed capabilities end the window, unless a fresh session may do better. */
  lemma CapabilitiesVerdict(steps: seq<Step>, id: nat, redial: bool, now: nat, oracle: Oracle)
    requires Run(steps).attached == Some(id)
    ensures var m := Run(steps);
            Take(m, Delivered(id, CapabilitiesFailed(redial)), now, oracle)
            == if redial && m.roaming then Hunt(m, now, oracle) else Over(m, Failed)
  {
    var m := Reached(steps);
    DeliveredIs(m, id, CapabilitiesFailed(redial), now, oracle);
    if redial && m.roaming { LossIs(m, now, oracle); } else { EndIs(m, true); }
  }

  /** Our own teardown passes, unless the host poisoned an ordered stream. The first
      such end in a minute hunts; a second inside it ends the window. */
  lemma PoisonedEnds(steps: seq<Step>, id: nat, core: bool, now: nat, oracle: Oracle)
    requires Run(steps).attached == Some(id)
    ensures var m := Run(steps);
            var first := AllPast(m.poisonedEnds, now);
            var f := m.(poisonedEnds := [now]);
            Take(m, Delivered(id, Closed(LocalTeardown(core))), now, oracle)
            == if !m.poisoned && !core then m
               else if !first then Over(m.(poisonedEnds := []), Failed)
               else if m.roaming then Hunt(f, now, oracle)
               else f
  {
    var m := Reached(steps);
    DeliveredIs(m, id, Closed(LocalTeardown(core)), now, oracle);
    if m.poisoned || core { PoisonedIs(m, now, oracle); }
  }

  /** A poisoned stream is only marked: its close follows. A state change is one
      beat of the policy. */
  lemma OtherEventsPass(steps: seq<Step>, id: nat, e: Event, now: nat, oracle: Oracle)
    requires Run(steps).attached == Some(id) && !EndsSession(e)
    ensures var m := Run(steps);
            Take(m, Delivered(id, e), now, oracle)
            == if e.StateChanged? then Take(m, PolicyTicks, now, oracle)
               else if e.OrderedStreamPoisoned? then m.(poisoned := true)
               else m
  {
    var m := Reached(steps);
    DeliveredIs(m, id, e, now, oracle);
  }

  /** While no session is attached an end waits, the first one alone: its own start
      has yet to complete. */
  lemma EarlyEndWaits(steps: seq<Step>, id: nat, e: Event, now: nat, oracle: Oracle)
    requires Run(steps).dialing == Some(id) && EndsSession(e)
    ensures var m := Run(steps);
            Take(m, Delivered(id, e), now, oracle)
            == if m.pendingTerminal.None? then m.(pendingTerminal := Some(e)) else m
  {
    var m := Reached(steps);
  }

  // ----- The policy's answers ------------------------------------------------

  /** What each answer of a living policy does to a window, first answers first. A
      browse is out under this generation. A dial loses the session and supersedes
      the dial before it; without a pinned identity it ends the window, and one that
      cannot be made is put back to the policy at once. */
  lemma PolicyAnswers(steps: seq<Step>, more: seq<Action>, now: nat, oracle: Oracle)
    requires Run(steps).roaming
    ensures var m := Run(steps);
            && Take(m, PolicyTicks, now, []) == m
            && Take(m, PolicyTicks, now, [[]] + oracle) == m
            && Take(m, PolicyTicks, now, [[BeginScan] + more] + oracle)
               == Take(m.(scans := m.scans + [m.generation]), PolicyTicks, now, [more] + oracle)
            && Take(m, PolicyTicks, now, [[Expired]] + oracle) == Over(m, Failed)
  {
    var m := Reached(steps);
    TickIs(m, [], now, oracle);
    TickIs(m, [BeginScan] + more, now, oracle);
    var s := m.(scans := m.scans + [m.generation]);
    TickIs(s, more, now, oracle);
    assert ([BeginScan] + more)[1..] == more;
    OneAction(m, Expired, now, oracle);
    EndIs(m, true);
  }

  lemma PolicyDials(steps: seq<Step>, pinned: bool, ready: bool, now: nat, oracle: Oracle)
    requires Run(steps).roaming
    ensures var m := Run(steps);
            Take(m, PolicyTicks, now, [[Dial(pinned, ready)]] + oracle)
            == if !pinned then Over(Lost(m), Failed)
               else if !ready then Hunt(m, now, oracle)
               else Dialed(Vacant(m))
  {
    var m := Reached(steps);
    OneAction(m, Dial(pinned, ready), now, oracle);
    LostIs(m);
    AbandonedIs(Lost(m));
    EndIs(Lost(m), true);
    assert m.attached.Some? ==> Lost(m).dialing.None? && Closing(Vacant(m)) == Closing(m);
  }

  // ----- Completions ---------------------------------------------------------

  /** The return of a dial nobody awaits only says that it returned. An awaited one
      that failed is ended once; this generation's is put to the policy, or ends a
      first connect for good when the host answered or the network forbade it. */
  lemma FailedDialAnswers(steps: seq<Step>, id: nat, why: DialError, now: nat, oracle: Oracle)
    requires Enabled(Run(steps), DialDone(id, Some(why)))
    ensures var m := Run(steps);
            var s := m.sessions[id];
            var f := Returned(m, id, FailedDial, 1).(dialing := None);
            Take(m, DialDone(id, Some(why)), now, oracle)
            == if m.dialing != Some(id) then Returned(m, id, s.fate, s.endings)
               else if s.generation != m.generation then f
               else if m.phase.Connecting? && !why.Unanswered? then GivenUp(f)
               else Take(f, PolicyTicks, now, oracle)
  {
    var m := Reached(steps);
    if m.dialing == Some(id) {
      var f := FailedIs(m, id, why, now, oracle);
      if m.sessions[id].generation == m.generation && m.phase.Connecting? && !why.Unanswered? {
        EndIs(f, true);
      }
    }
  }

  /** A start that completes for this generation's vacant window is attached, and the
      first one starts the stream and takes the hold; for another window it is ended
      once. An end it met meanwhile is handled now, and its own teardown, unless the
      stream was poisoned, as a loss. */
  lemma CompletedDialAnswers(steps: seq<Step>, id: nat, now: nat, oracle: Oracle)
    requires Enabled(Run(steps), DialDone(id, None)) && Run(steps).dialing == Some(id)
    ensures var m := Run(steps);
            Take(m, DialDone(id, None), now, oracle)
            == if m.sessions[id].generation != m.generation then Unowned(m, id)
               else Replayed(Showing(m, id), id, m.pendingTerminal, now, oracle)
  {
    var m := Reached(steps);
    if m.sessions[id].generation != m.generation {
      OrphanIs(m, id, now, oracle);
    } else {
      AdoptIs(m, id, now, oracle);
      ReplayIs(Showing(m, id).(pendingTerminal := m.pendingTerminal), id, now, oracle);
    }
  }

  /** A browse of another generation only leaves the list; this one's is put to the
      policy, unless it shows the host's identity replaced. */
  lemma BrowseAnswers(steps: seq<Step>, i: nat, replaced: bool, now: nat, oracle: Oracle)
    requires i < |Run(steps).scans|
    ensures var m := Run(steps);
            var t := m.(scans := m.scans[..i] + m.scans[i + 1..]);
            Take(m, ScanDone(i, replaced), now, oracle)
            == if m.scans[i] != m.generation then t
               else if replaced then GivenUp(t)
               else Take(t, PolicyTicks, now, oracle)
  {
    var m := Reached(steps);
    var t := m.(scans := m.scans[..i] + m.scans[i + 1..]);
    EndIs(t, true);
    assert Take(t, PolicyTicks, now, oracle) == RoamingInput(t, Answered, oracle).0;
  }

  /** A lookup of another generation only leaves the list; this one's fails the
      window, or starts a policy under the next generation. */
  lemma LookupAnswers(steps: seq<Step>, i: nat, found: bool, now: nat, oracle: Oracle)
    requires i < |Run(steps).lookups|
    ensures var m := Run(steps);
            var t := m.(lookups := m.lookups[..i] + m.lookups[i + 1..]);
            Take(m, LookupDone(i, found), now, oracle)
            == if m.lookups[i] != m.generation then t
               else if !found then t.(phase := Failed)
               else Take(t.(generation := m.generation + 1, roaming := true), PolicyTicks, now, oracle)
  {
    var m := Reached(steps);
    LookupIs(m, m.(lookups := m.lookups[..i] + m.lookups[i + 1..]), i, found, now, oracle);
  }

  // ----- The human -----------------------------------------------------------

  /** A connect supersedes the dial in flight and everything of this generation, and
      keeps what is attached and the policy: paired, a lookup is out; unpaired it fails. */
  lemma ConnectAnswers(steps: seq<Step>, paired: bool, now: nat, oracle: Oracle)
    ensures var m := Run(steps);
            Take(m, UserConnects(paired), now, oracle) == Connected(m, Undialed(m), paired)
  {
    var m := Reached(steps);
    ConnectIs(m, Undialed(m), paired, now, oracle);
  }

  /** A disconnect leaves any phase: what lives is ended, and a failure screen with
      nothing behind it stays up. */
  lemma DisconnectAnswers(steps: seq<Step>, now: nat, oracle: Oracle)
    ensures var m := Run(steps);
            Take(m, UserDisconnects, now, oracle)
            == if m.attached.None? && !m.roaming then
                 Vacant(m).(generation := m.generation + 1, phase := if m.phase.Connecting? then PickHost else m.phase)
               else Over(m, PickHost).(generation := m.generation + 2)
  {
    var m := Reached(steps);
    var t := Undialed(m).(generation := m.generation + 1,
                          phase := if m.phase.Connecting? then PickHost else m.phase);
    DisconnectIs(m, Undialed(m), now, oracle);
    EndIs(t, false);
    if m.attached.Some? || m.roaming { UndialedOver(m, t); }
  }

  /** A reconnect loses the session and hunts at once, if there is a policy. */
  lemma ReconnectAnswers(steps: seq<Step>, now: nat, oracle: Oracle)
    ensures var m := Run(steps);
            Take(m, UserReconnects, now, oracle) == if m.roaming then Hunt(m, now, oracle) else m
  {
    var m := Reached(steps);
    LossIs(m, now, oracle);
  }
}
