/** The window as its methods drive it: fields updated in place, each method
    tied to the step of the model the ownership theorems are about. */
module ConnectionDriver {
  import opened Wrappers
  import opened ConnectionModel

  class ConnectionDriver {
    var phase: Phase
    var lifecycleGeneration: nat
    var sessionEpoch: nat
    var sessions: seq<Session>
    var lyteSession: Option<nat>
    var dialingSession: Option<nat>
    var roaming: bool
    var pendingTerminal: Option<Event>
    var hostPoisonedStream: bool
    var poisonedStreamEnds: seq<nat>
    var scans: seq<nat>
    var lookups: seq<nat>
    var streamHolds: int

    ghost function State(): Model
      reads this
    {
      Model(phase, lifecycleGeneration, sessionEpoch, sessions, lyteSession, dialingSession, roaming,
            pendingTerminal, hostPoisonedStream, poisonedStreamEnds, scans, lookups, streamHolds)
    }

    constructor ()
      ensures State() == Start
    {
      phase, lifecycleGeneration, sessionEpoch, sessions := PickHost, 0, 0, [];
      lyteSession, dialingSession, roaming := None, None, false;
      pendingTerminal, hostPoisonedStream, poisonedStreamEnds := None, false, [];
      scans, lookups, streamHolds := [], [], 0;
    }

    method EndSession(id: nat, fate: Fate)
      modifies this`sessions
      ensures State() == EndOne(old(State()), id, fate)
    {
      if id < |sessions| {
        sessions := sessions[id := sessions[id].(fate := fate, endings := sessions[id].endings + 1)];
      }
    }

    method AbandonDialInFlight()
      modifies this`dialingSession, this`sessionEpoch, this`sessions
      ensures State() == AbandonDial(old(State()))
    {
      if dialingSession.None? { return; }
      var id := dialingSession.value;
      dialingSession := None;
      sessionEpoch := sessionEpoch + 1;
      EndSession(id, Abandoned);
    }

    method DetachWireSession()
      modifies this`lyteSession, this`sessionEpoch, this`sessions
      ensures State() == Detach(old(State()))
    {
      if lyteSession.None? { return; }
      var id := lyteSession.value;
      lyteSession := None;
      sessionEpoch := sessionEpoch + 1;
      EndSession(id, Detached);
    }

    method StopRoamingMachinery()
      modifies this`lifecycleGeneration, this`roaming
      ensures State() == StopRoaming(old(State()))
    {
      lifecycleGeneration := lifecycleGeneration + 1;
      roaming := false;
    }

    method End(failed: bool)
      modifies this
      ensures State() == EndLyteSession(old(State()), failed)
    {
      if lyteSession.None? && !roaming { return; }
      var streamed := phase.Streaming?;
      AbandonDialInFlight();
      StopRoamingMachinery();
      DetachWireSession();
      if streamed { streamHolds := streamHolds - 1; }
      phase := if failed then Failed else PickHost;
    }

    method UserDisconnect()
      modifies this
      ensures State() == Disconnect(old(State()))
    {
      AbandonDialInFlight();
      lifecycleGeneration := lifecycleGeneration + 1;
      ghost var t := State();
      assert t == AdvanceLifecycle(AbandonDial(old(State())));
      if phase.Connecting? { phase := PickHost; }
      ghost var u := if t.phase.Connecting? then t.(phase := PickHost) else t;
      assert State() == u;
      End(false);
      assert State() == EndLyteSession(u, false);
    }

    method MakeLyteSession()
      modifies this
      ensures State() == MakeSession(old(State()))
    {
      sessionEpoch := sessionEpoch + 1;
      pendingTerminal := None;
      hostPoisonedStream := false;
      dialingSession := Some(|sessions|);
      sessions := sessions + [Session(sessionEpoch, lifecycleGeneration, Dialing, 0, false)];
    }

    /** The single funnel for every roaming mutation. */
    method Roam(input: Input, oracle: Oracle) returns (rest: Oracle)
      modifies this
      ensures (State(), rest) == RoamingInput(old(State()), input, oracle)
      decreases |oracle|, 0
    {
      rest := oracle;
      if !roaming || input.Established? || oracle == [] { return; }
      rest := RunAll(oracle[0], oracle[1..]);
    }

    method RunAll(actions: seq<Action>, oracle: Oracle) returns (rest: Oracle)
      modifies this
      ensures (State(), rest) == RunActions(old(State()), actions, oracle)
      decreases |oracle|, |actions| + 2
    {
      rest := oracle;
      for i := 0 to |actions|
        invariant |rest| <= |oracle|
        invariant RunActions(State(), actions[i..], rest) == RunActions(old(State()), actions, oracle)
      {
        assert actions[i..][1..] == actions[i + 1..];
        rest := RunOne(actions[i], rest);
      }
    }

    method RunOne(action: Action, oracle: Oracle) returns (rest: Oracle)
      modifies this
      ensures (State(), rest) == RunAction(old(State()), action, oracle)
      ensures |rest| <= |oracle|
      decreases |oracle|, 1
    {
      rest := oracle;
      match action {
        case BeginScan => scans := scans + [lifecycleGeneration];
        case Expired => End(true);
        case Dial(pinned, ready) =>
          DetachWireSession();
          if !pinned {
            End(true);
          } else if !ready {
            rest := Roam(Answered, oracle);
          } else {
            AbandonDialInFlight();
            MakeLyteSession();
          }
      }
    }

    method LoseSession(oracle: Oracle) returns (rest: Oracle)
      modifies this
      ensures (State(), rest) == BeginRoamingAfterLoss(old(State()), oracle)
      ensures (State(), rest) == ReconnectNow(old(State()), oracle)
    {
      rest := oracle;
      if !roaming { return; }
      DetachWireSession();
      rest := Roam(Answered, oracle);
    }

    method EndPoisoned(now: nat, oracle: Oracle) returns (rest: Oracle)
      modifies this
      ensures (State(), rest) == EndAfterPoisonedStream(old(State()), now, oracle)
    {
      rest := oracle;
      poisonedStreamEnds := Recent(poisonedStreamEnds, now) + [now];
      if |poisonedStreamEnds| <= 1 {
        rest := LoseSession(oracle);
        return;
      }
      poisonedStreamEnds := [];
      End(true);
    }

    method Close(reason: CloseReason, now: nat, oracle: Oracle) returns (rest: Oracle)
      modifies this
      ensures (State(), rest) == HandleClose(old(State()), reason, now, oracle)
    {
      rest := oracle;
      match reason {
        case LocalTeardown(corePoisoned) =>
          if hostPoisonedStream || corePoisoned { rest := EndPoisoned(now, oracle); }
        case TakenOver => End(true);
        case ShuttingDown => rest := LoseSession(oracle);
        case LivenessTimeout => rest := LoseSession(oracle);
      }
    }

    method Handle(e: Event, now: nat, oracle: Oracle) returns (rest: Oracle)
      modifies this
      ensures (State(), rest) == HandleEvent(old(State()), e, now, oracle)
    {
      rest := oracle;
      if lyteSession.None? && EndsSession(e) {
        if pendingTerminal.None? { pendingTerminal := Some(e); }
        return;
      }
      match e {
        case CapabilitiesFailed(redial) =>
          if redial && roaming { rest := LoseSession(oracle); } else { End(true); }
        case StateChanged(_) => rest := Roam(Answered, oracle);
        case OrderedStreamPoisoned => hostPoisonedStream := true;
        case Closed(reason) => rest := Close(reason, now, oracle);
        case OtherEvent =>
      }
    }

    method Replay(now: nat, oracle: Oracle) returns (rest: Oracle)
      modifies this
      ensures (State(), rest) == ReplayPendingTerminal(old(State()), now, oracle)
    {
      rest := oracle;
      if pendingTerminal.None? { return; }
      var e := pendingTerminal.value;
      pendingTerminal := None;
      if e.Closed? && e.reason.LocalTeardown? {
        if hostPoisonedStream { rest := EndPoisoned(now, oracle); } else { rest := LoseSession(oracle); }
      } else {
        rest := Handle(e, now, oracle);
      }
    }

    method AdoptDialed(id: nat, now: nat, oracle: Oracle) returns (rest: Oracle)
      requires id < |sessions|
      modifies this
      ensures (State(), rest) == Adopt(old(State()), id, now, oracle)
    {
      var first := phase.Connecting?;
      lyteSession := Some(id);
      sessions := sessions[id := sessions[id].(fate := Attached)];
      rest := Roam(Established, oracle);
      if first {
        phase := Streaming;
        streamHolds := streamHolds + 1;
      }
      rest := Replay(now, rest);
    }

    method ReportDialFailure(error: DialError, oracle: Oracle) returns (rest: Oracle)
      modifies this
      ensures (State(), rest) == DialFailed(old(State()), error, oracle)
    {
      rest := oracle;
      if phase.Connecting? && !error.Unanswered? {
        End(true);
        return;
      }
      rest := Roam(Answered, oracle);
    }

    /** The dial's completion: claim, fence, then fail, orphan or adopt. */
    method CompleteDial(id: nat, error: Option<DialError>, now: nat, oracle: Oracle) returns (rest: Oracle)
      requires id < |sessions|
      modifies this
      ensures (State(), rest) == DialReturns(old(State()), id, error, now, oracle)
    {
      rest := oracle;
      sessions := sessions[id := sessions[id].(returned := true)];
      if dialingSession != Some(id) { return; }
      dialingSession := None;
      var current := sessions[id].generation == lifecycleGeneration;
      match error {
        case Some(why) =>
          EndSession(id, FailedDial);
          if current { rest := ReportDialFailure(why, oracle); }
        case None =>
          if current && lyteSession.None? {
            rest := AdoptDialed(id, now, oracle);
          } else {
            EndSession(id, Orphaned);
          }
      }
    }

    method CompleteScan(i: nat, replaced: bool, oracle: Oracle) returns (rest: Oracle)
      requires i < |scans|
      modifies this
      ensures (State(), rest) == ScanReturns(old(State()), i, replaced, oracle)
    {
      rest := oracle;
      var generation := scans[i];
      scans := Remove(scans, i);
      if generation != lifecycleGeneration { return; }
      if replaced { End(true); } else { rest := Roam(Answered, oracle); }
    }

    method UserConnect(paired: bool)
      modifies this
      ensures State() == ConnectLyte(old(State()), paired)
    {
      AbandonDialInFlight();
      lifecycleGeneration := lifecycleGeneration + 1;
      if !paired {
        phase := Failed;
        return;
      }
      poisonedStreamEnds := [];
      phase := Connecting;
      lookups := lookups + [lifecycleGeneration];
    }

    method CompleteLookup(i: nat, found: bool, oracle: Oracle) returns (rest: Oracle)
      requires i < |lookups|
      modifies this
      ensures (State(), rest) == LookupReturns(old(State()), i, found, oracle)
    {
      rest := oracle;
      var generation := lookups[i];
      lookups := Remove(lookups, i);
      if generation != lifecycleGeneration { return; }
      if !found {
        phase := Failed;
        return;
      }
      lifecycleGeneration := lifecycleGeneration + 1;
      roaming := true;
      rest := Roam(Answered, oracle);
    }

    /** The event fence: only the current epoch's events apply. */
    method Deliver(id: nat, e: Event, now: nat, oracle: Oracle)
      requires id < |sessions|
      modifies this
      ensures State() == Take(old(State()), Delivered(id, e), now, oracle)
    {
      if sessions[id].epoch == sessionEpoch {
        var rest := Handle(e, now, oracle);
      }
    }
  }
}
