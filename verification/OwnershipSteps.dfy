/** The steps behind session ownership. A session is dialing, attached or ended
    once, and the window points at exactly the live ones; endings, dials,
    completions, events and policy actions each keep that, and say how the
    stream hold and the fence move. */
module OwnershipSteps {
  import opened Wrappers
  import opened ConnectionModel

  predicate Live(f: Fate) {
    f.Dialing? || f.Attached?
  }

  /** One session's standing: live exactly while the model owns it, ended once
      otherwise, and fenced off for good when abandoned or detached. */
  ghost predicate Standing(m: Model, id: nat)
    requires id < |m.sessions|
  {
    var s := m.sessions[id];
    && s.epoch <= m.epoch
    && (s.fate.Dialing? <==> m.dialing == Some(id))
    && (s.fate.Attached? <==> m.attached == Some(id))
    && s.endings == Count(!Live(s.fate))
    && (s.fate.Abandoned? || s.fate.Detached? ==> s.epoch < m.epoch)
    && (Live(s.fate) ==> s.epoch == m.epoch)
    && (s.fate.Dialing? ==> !s.returned)
  }

  /** Each session was built under an epoch of its own, later than all before. */
  ghost predicate EpochsRise(sessions: seq<Session>) {
    forall i, j :: 0 <= i < j < |sessions| ==> sessions[i].epoch < sessions[j].epoch
  }

  ghost predicate Owned(m: Model) {
    && EpochsRise(m.sessions)
    && (forall id {:trigger m.sessions[id]} :: 0 <= id < |m.sessions| ==> Standing(m, id))
    && (m.attached.Some? ==> m.attached.value < |m.sessions| && m.dialing.None?)
    && (m.dialing.Some? ==> m.dialing.value < |m.sessions|)
  }

  /** The stream hold is taken exactly while streaming. */
  ghost predicate HoldExact(m: Model) {
    m.holds == Count(m.phase.Streaming?)
  }

  /** While a policy lives, the dial in flight is one it asked for: its completion
      will be this generation's, and so the policy's to hear. */
  ghost predicate DialAnswers(m: Model) {
    m.roaming && m.dialing.Some? ==>
      m.dialing.value < |m.sessions| && m.sessions[m.dialing.value].generation == m.generation
  }

  /** What a stretch of a turn may do: never attach, never start streaming,
      never revive or re-end a session, and keep an exact hold exact. */
  ghost predicate Winds(m: Model, t: Model) {
    && (m.attached.None? ==> t.attached.None?)
    && (t.phase.Streaming? ==> m.phase.Streaming?)
    && (HoldExact(m) ==> HoldExact(t))
    && |m.sessions| <= |t.sessions|
    && (forall id {:trigger t.sessions[id]} :: 0 <= id < |m.sessions| && !Live(m.sessions[id].fate) ==>
          t.sessions[id] == m.sessions[id])
    && t.generation >= m.generation && t.lookups == m.lookups
    && (DialAnswers(m) ==> DialAnswers(t))
  }

  // ----- Ends ---------------------------------------------------------------

  lemma AbandonKeeps(m: Model) returns (t: Model)
    requires Owned(m)
    ensures t == AbandonDial(m) && Owned(t) && Winds(m, t) && t.dialing.None?
    ensures t.attached == m.attached && t.roaming == m.roaming && t.phase == m.phase
    ensures t.generation == m.generation && t.lookups == m.lookups
  {
    t := AbandonDial(m);
    if m.dialing.Some? {
      forall id | 0 <= id < |t.sessions| ensures Standing(t, id) { assert Standing(m, id); }
    }
  }

  lemma DetachKeeps(m: Model) returns (t: Model)
    requires Owned(m)
    ensures t == Detach(m) && Owned(t) && Winds(m, t) && t.attached.None?
    ensures t.dialing == m.dialing && t.roaming == m.roaming && t.phase == m.phase
    ensures t.generation == m.generation && t.lookups == m.lookups
  {
    t := Detach(m);
    if m.attached.Some? {
      forall id | 0 <= id < |t.sessions| ensures Standing(t, id) { assert Standing(m, id); }
    }
  }

  lemma EndKeeps(m: Model, failed: bool) returns (t: Model)
    requires Owned(m)
    ensures t == EndLyteSession(m, failed) && Owned(t) && Winds(m, t)
    ensures m.attached.Some? || m.roaming ==> t.dialing.None? && t.attached.None? && !t.roaming
    ensures t.attached.None? && !t.roaming
    ensures m.phase.Streaming? && (m.attached.Some? || m.roaming) ==> !t.phase.Streaming?
  {
    t := EndLyteSession(m, failed);
    if m.attached.Some? || m.roaming {
      var a := AbandonKeeps(m);
      var b := StopRoaming(a);
      assert Owned(b) by {
        forall id | 0 <= id < |b.sessions| ensures Standing(b, id) { assert Standing(a, id); }
      }
      var c := DetachKeeps(b);
      forall id | 0 <= id < |t.sessions| ensures Standing(t, id) { assert Standing(c, id); }
    }
  }

  lemma MakeKeeps(m: Model) returns (t: Model)
    requires Owned(m) && m.dialing.None? && m.attached.None?
    ensures t == MakeSession(m) && Owned(t) && Winds(m, t)
  {
    t := MakeSession(m);
    forall id | 0 <= id < |t.sessions|
      ensures Standing(t, id)
    {
      if id < |m.sessions| {
        assert t.sessions[id] == m.sessions[id];
        assert Standing(m, id);
      }
    }
  }

  // ----- The policy's actions -----------------------------------------------

  lemma {:induction false} InputKeeps(m: Model, input: Input, oracle: Oracle) returns (t: Model)
    requires Owned(m)
    ensures t == RoamingInput(m, input, oracle).0 && Owned(t) && Winds(m, t)
    decreases |oracle|, 0
  {
    t := RoamingInput(m, input, oracle).0;
    if !m.roaming || input.Established? || oracle == [] {
    } else {
      t := ActionsKeep(m, oracle[0], oracle[1..]);
    }
  }

  lemma {:induction false} ActionsKeep(m: Model, actions: seq<Action>, oracle: Oracle) returns (t: Model)
    requires Owned(m)
    ensures t == RunActions(m, actions, oracle).0 && Owned(t) && Winds(m, t)
    decreases |oracle|, |actions| + 2
  {
    if actions == [] {
      t := m;
    } else {
      var u := ActionKeeps(m, actions[0], oracle);
      var rest := RunAction(m, actions[0], oracle).1;
      t := ActionsKeep(u, actions[1..], rest);
    }
  }

  lemma {:induction false} ActionKeeps(m: Model, action: Action, oracle: Oracle) returns (t: Model)
    requires Owned(m)
    ensures t == RunAction(m, action, oracle).0 && Owned(t) && Winds(m, t)
    decreases |oracle|, 1
  {
    match action
    case BeginScan =>
      t := m.(scans := m.scans + [m.generation]);
      forall id | 0 <= id < |t.sessions| ensures Standing(t, id) { assert Standing(m, id); }
    case Expired => t := EndKeeps(m, true);
    case Dial(pinned, ready) =>
      var d := DetachKeeps(m);
      if !pinned {
        t := EndKeeps(d, true);
      } else if !ready {
        t := InputKeeps(d, Answered, oracle);
      } else {
        var a := AbandonKeeps(d);
        t := MakeKeeps(a);
        return;
      }
  }

  lemma LossKeeps(m: Model, oracle: Oracle) returns (t: Model)
    requires Owned(m)
    ensures t == BeginRoamingAfterLoss(m, oracle).0 && t == ReconnectNow(m, oracle).0
    ensures Owned(t) && Winds(m, t)
    ensures m.roaming ==> t.attached.None?
  {
    if !m.roaming {
      t := m;
    } else {
      var d := DetachKeeps(m);
      t := InputKeeps(d, Answered, oracle);
    }
  }

  // ----- Session events -----------------------------------------------------

  /** A step that touches neither sessions nor ownership. */
  ghost predicate SameSessions(m: Model, t: Model) {
    && t.sessions == m.sessions && t.attached == m.attached && t.dialing == m.dialing
    && t.epoch == m.epoch
  }

  lemma SameKeeps(m: Model, t: Model)
    requires Owned(m) && SameSessions(m, t)
    ensures Owned(t)
  {
    forall id | 0 <= id < |t.sessions| ensures Standing(t, id) { assert Standing(m, id); }
  }

  lemma PoisonKeeps(m: Model, now: nat, oracle: Oracle) returns (t: Model)
    requires Owned(m)
    ensures t == EndAfterPoisonedStream(m, now, oracle).0 && Owned(t) && Winds(m, t)
    ensures m.roaming ==> t.attached.None?
  {
    var ends := Recent(m.poisonedEnds, now) + [now];
    if |ends| <= 1 {
      var u := m.(poisonedEnds := ends);
      SameKeeps(m, u);
      t := LossKeeps(u, oracle);
    } else {
      var u := m.(poisonedEnds := []);
      SameKeeps(m, u);
      t := EndKeeps(u, true);
    }
  }

  lemma CloseKeeps(m: Model, reason: CloseReason, now: nat, oracle: Oracle) returns (t: Model)
    requires Owned(m)
    ensures t == HandleClose(m, reason, now, oracle).0 && Owned(t) && Winds(m, t)
    ensures m.roaming && !reason.LocalTeardown? ==> t.attached.None?
  {
    match reason
    case LocalTeardown(corePoisoned) =>
      if m.poisoned || corePoisoned { t := PoisonKeeps(m, now, oracle); } else { t := m; }
    case TakenOver => t := EndKeeps(m, true);
    case ShuttingDown => t := LossKeeps(m, oracle);
    case LivenessTimeout => t := LossKeeps(m, oracle);
  }

  lemma EventKeeps(m: Model, e: Event, now: nat, oracle: Oracle) returns (t: Model)
    requires Owned(m)
    ensures t == HandleEvent(m, e, now, oracle).0 && Owned(t) && Winds(m, t)
    ensures m.roaming && EndsSession(e) && !(e.Closed? && e.reason.LocalTeardown?) ==> t.attached.None?
  {
    if m.attached.None? && EndsSession(e) {
      t := if m.pendingTerminal.None? then m.(pendingTerminal := Some(e)) else m;
      SameKeeps(m, t);
    } else {
      match e
      case CapabilitiesFailed(redial) =>
        if redial && m.roaming { t := LossKeeps(m, oracle); } else { t := EndKeeps(m, true); }
      case StateChanged(_) => t := InputKeeps(m, Answered, oracle);
      case OrderedStreamPoisoned => t := m.(poisoned := true); SameKeeps(m, t);
      case Closed(reason) => t := CloseKeeps(m, reason, now, oracle);
      case OtherEvent => t := m;
    }
  }

  /** A session that met its end during its own start never stays attached. */
  lemma ReplayKeeps(m: Model, now: nat, oracle: Oracle) returns (t: Model)
    requires Owned(m)
    ensures t == ReplayPendingTerminal(m, now, oracle).0 && Owned(t) && Winds(m, t)
    ensures m.roaming && m.pendingTerminal.Some? && EndsSession(m.pendingTerminal.value) ==> t.attached.None?
  {
    match m.pendingTerminal
    case None => t := m;
    case Some(e) =>
      var u := m.(pendingTerminal := None);
      SameKeeps(m, u);
      if e.Closed? && e.reason.LocalTeardown? {
        if u.poisoned { t := PoisonKeeps(u, now, oracle); } else { t := LossKeeps(u, oracle); }
      } else {
        t := EventKeeps(u, e, now, oracle);
      }
  }

  // ----- Completions --------------------------------------------------------

  /** What one whole turn keeps: an exact hold stays exact unless `leak`. */
  ghost predicate Turns(m: Model, t: Model, leak: bool) {
    && Owned(t)
    && |m.sessions| <= |t.sessions| && t.generation >= m.generation
    && (forall id {:trigger t.sessions[id]} :: 0 <= id < |m.sessions| && !Live(m.sessions[id].fate) ==>
          t.sessions[id].fate == m.sessions[id].fate && t.sessions[id].endings == 1)
    && (HoldExact(m) && !leak ==> HoldExact(t))
  }

  lemma WindsTurns(m: Model, t: Model, leak: bool)
    requires Owned(m) && Owned(t) && Winds(m, t)
    ensures Turns(m, t, leak)
  {
    forall id | 0 <= id < |m.sessions| && !Live(m.sessions[id].fate)
      ensures t.sessions[id].fate == m.sessions[id].fate && t.sessions[id].endings == 1
    {
      assert Standing(m, id);
    }
  }

  /** Two stretches make a turn. */
  lemma TurnsThenWinds(m: Model, t: Model, u: Model, leak: bool)
    requires Turns(m, t, leak) && Owned(u) && Winds(t, u)
    ensures Turns(m, u, leak)
  {
    forall id | 0 <= id < |m.sessions| && !Live(m.sessions[id].fate)
      ensures u.sessions[id].fate == m.sessions[id].fate && u.sessions[id].endings == 1
    {
      assert t.sessions[id].fate == m.sessions[id].fate;
    }
  }

  /** The window right after it adopts: attached, and the first opens the stream. */
  function Adopted(m: Model, id: nat): Model
    requires id < |m.sessions|
  {
    var r := m.(sessions := m.sessions[id := m.sessions[id].(returned := true)], dialing := None);
    var a := r.(attached := Some(id), sessions := r.sessions[id := r.sessions[id].(fate := Attached)]);
    if m.phase.Connecting? then a.(phase := Streaming, holds := a.holds + 1) else a
  }

  lemma AdoptedKeeps(m: Model, id: nat) returns (c: Model)
    requires Owned(m) && m.dialing == Some(id) && m.attached.None?
    ensures c == Adopted(m, id) && Turns(m, c, false)
  {
    c := Adopted(m, id);
    assert Standing(m, id);
    forall i | 0 <= i < |c.sessions| ensures Standing(c, i) { assert Standing(m, i); }
    forall i | 0 <= i < |m.sessions| && !Live(m.sessions[i].fate)
      ensures c.sessions[i].fate == m.sessions[i].fate && c.sessions[i].endings == 1
    {
      assert Standing(m, i);
    }
  }

  lemma AdoptKeeps(m: Model, id: nat, now: nat, oracle: Oracle) returns (t: Model)
    requires Owned(m) && m.dialing == Some(id) && m.attached.None?
    requires !m.sessions[id].returned
    ensures var r := m.(sessions := m.sessions[id := m.sessions[id].(returned := true)], dialing := None);
            t == Adopt(r, id, now, oracle).0
    ensures Turns(m, t, false) && t.lookups == m.lookups
    ensures DialAnswers(t)
    ensures m.roaming && m.pendingTerminal.Some? && EndsSession(m.pendingTerminal.value) ==> t.attached.None?
    ensures m.pendingTerminal.None? ==> t.attached == Some(id)
  {
    var c := AdoptedKeeps(m, id);
    t := ReplayKeeps(c, now, oracle);
    TurnsThenWinds(m, c, t, false);
  }

  /** A session claimed and not adopted is ended once. */
  lemma ClaimedEnds(m: Model, id: nat, fate: Fate) returns (f: Model)
    requires Owned(m) && m.dialing == Some(id) && (fate.FailedDial? || fate.Orphaned?)
    ensures var r := m.(sessions := m.sessions[id := m.sessions[id].(returned := true)]);
            f == EndOne(r.(dialing := None), id, fate)
    ensures Turns(m, f, false) && f.lookups == m.lookups
    ensures f.dialing.None?
  {
    var r := m.(sessions := m.sessions[id := m.sessions[id].(returned := true)]);
    f := EndOne(r.(dialing := None), id, fate);
    assert Standing(m, id);
    forall i | 0 <= i < |f.sessions| ensures Standing(f, i) { assert Standing(m, i); }
  }

  /** An abandoned dial's return changes nothing that counts. */
  lemma ReturnKeeps(m: Model, id: nat) returns (r: Model)
    requires Owned(m) && id < |m.sessions| && m.dialing != Some(id)
    ensures r == m.(sessions := m.sessions[id := m.sessions[id].(returned := true)])
    ensures Turns(m, r, false) && r.lookups == m.lookups
    ensures DialAnswers(m) ==> DialAnswers(r)
  {
    r := m.(sessions := m.sessions[id := m.sessions[id].(returned := true)]);
    forall i | 0 <= i < |r.sessions| ensures Standing(r, i) { assert Standing(m, i); }
  }

  lemma DialReturnsKeeps(m: Model, id: nat, error: Option<DialError>, now: nat, oracle: Oracle) returns (t: Model)
    requires Owned(m) && id < |m.sessions| && !m.sessions[id].returned
    ensures t == DialReturns(m, id, error, now, oracle).0 && Turns(m, t, false) && t.lookups == m.lookups
    ensures DialAnswers(m) ==> DialAnswers(t)
  {
    var current := m.sessions[id].generation == m.generation;
    if m.dialing != Some(id) {
      t := ReturnKeeps(m, id);
    } else if error.None? && current {
      t := AdoptKeeps(m, id, now, oracle);
    } else {
      t := ClaimedEnds(m, id, if error.Some? then FailedDial else Orphaned);
      if error.Some? && current {
        var f := t;
        t := DialFailedKeeps(f, error.value, oracle);
        TurnsThenWinds(m, f, t, false);
      }
    }
  }

  lemma DialFailedKeeps(m: Model, error: DialError, oracle: Oracle) returns (t: Model)
    requires Owned(m)
    ensures t == DialFailed(m, error, oracle).0 && Owned(t) && Winds(m, t)
  {
    if m.phase.Connecting? && !error.Unanswered? {
      t := EndKeeps(m, true);
    } else {
      t := InputKeeps(m, Answered, oracle);
    }
  }

  lemma ConnectKeeps(m: Model, paired: bool) returns (t: Model)
    requires Owned(m)
    ensures t == ConnectLyte(m, paired) && Turns(m, t, m.phase.Streaming?)
    ensures t.dialing.None?
  {
    var a := AbandonKeeps(m);
    WindsTurns(m, a, m.phase.Streaming?);
    t := ConnectLyte(m, paired);
    SameKeeps(a, t);
    forall i | 0 <= i < |m.sessions| && !Live(m.sessions[i].fate)
      ensures t.sessions[i].fate == m.sessions[i].fate && t.sessions[i].endings == 1
    {
      assert a.sessions[i].fate == m.sessions[i].fate;
    }
  }

  /** Whether this lookup's failure finds the window already streaming. */
  predicate FailsUnderStream(m: Model, i: nat, found: bool) {
    i < |m.lookups| && m.lookups[i] == m.generation && !found && m.phase.Streaming?
  }

  lemma LookupKeeps(m: Model, i: nat, found: bool, oracle: Oracle) returns (t: Model)
    requires Owned(m) && i < |m.lookups|
    ensures t == LookupReturns(m, i, found, oracle).0 && Turns(m, t, FailsUnderStream(m, i, found))
  {
    var leak := FailsUnderStream(m, i, found);
    var u := m.(lookups := Remove(m.lookups, i));
    if m.lookups[i] == m.generation && !found {
      u := u.(phase := Failed);
    } else if m.lookups[i] == m.generation {
      u := AdvanceLifecycle(u).(roaming := true);
    }
    SameKeeps(m, u);
    forall j | 0 <= j < |m.sessions| && !Live(m.sessions[j].fate)
      ensures u.sessions[j].fate == m.sessions[j].fate && u.sessions[j].endings == 1
    {
      assert Standing(m, j);
    }
    t := u;
    if m.lookups[i] == m.generation && found {
      t := InputKeeps(u, Answered, oracle);
      TurnsThenWinds(m, u, t, leak);
    }
  }

  lemma ScanKeeps(m: Model, i: nat, replaced: bool, oracle: Oracle) returns (t: Model)
    requires Owned(m) && i < |m.scans|
    ensures t == ScanReturns(m, i, replaced, oracle).0 && Turns(m, t, false) && t.lookups == m.lookups
    ensures DialAnswers(m) ==> DialAnswers(t)
  {
    var u := m.(scans := Remove(m.scans, i));
    SameKeeps(m, u);
    if m.scans[i] != m.generation {
      t := u;
    } else if replaced {
      t := EndKeeps(u, true);
    } else {
      t := InputKeeps(u, Answered, oracle);
    }
    WindsTurns(m, t, false);
  }

  lemma DisconnectKeeps(m: Model) returns (t: Model)
    requires Owned(m)
    ensures t == Disconnect(m) && Turns(m, t, false)
    ensures t.attached.None? && t.dialing.None? && !t.roaming && t.lookups == m.lookups
  {
    var a := AbandonKeeps(m);
    var b := AdvanceLifecycle(a);
    var c := if b.phase.Connecting? then b.(phase := PickHost) else b;
    SameKeeps(a, c);
    t := EndKeeps(c, false);
    WindsTurns(m, t, false);
  }

  // ----- Every turn ---------------------------------------------------------

  /** The two turns that can break an exact hold: a connect begun while
      streaming, and an identity lookup that fails under a stream. */
  predicate Leaks(m: Model, t: Turn) {
    match t
    case UserConnects(_) => m.phase.Streaming?
    case LookupDone(i, found) => FailsUnderStream(m, i, found)
    case _ => false
  }

  lemma TurnKeeps(m: Model, t: Turn, now: nat, oracle: Oracle) returns (u: Model)
    requires Owned(m)
    ensures u == Take(m, t, now, oracle) && Turns(m, u, Leaks(m, t))
  {
    u := m;
    WindsTurns(m, m, Leaks(m, t));
    if Enabled(m, t) {
      match t
      case UserConnects(paired) => u := ConnectKeeps(m, paired);
      case UserDisconnects => u := DisconnectKeeps(m);
      case UserReconnects => u := LossKeeps(m, oracle); WindsTurns(m, u, false);
      case LookupDone(i, found) => u := LookupKeeps(m, i, found, oracle);
      case DialDone(id, error) => u := DialReturnsKeeps(m, id, error, now, oracle);
      case ScanDone(i, replaced) => u := ScanKeeps(m, i, replaced, oracle);
      case PolicyTicks => u := InputKeeps(m, Answered, oracle); WindsTurns(m, u, false);
      case Delivered(id, e) =>
        if Applies(m, id) { u := EventKeeps(m, e, now, oracle); WindsTurns(m, u, false); }
    }
  }

  // ----- Connects from an idle window ---------------------------------------

  /** Nothing attached and no policy hunting: where the picker stands. */
  predicate Idle(m: Model) {
    m.attached.None? && !m.roaming
  }

  predicate Quiet(m: Model) {
    Idle(m) && m.dialing.None? && m.phase.Connecting?
  }

  /** While the newest connect still waits for its identity, nothing else
      stands; older lookups are stale. */
  ghost predicate LookupsFenced(m: Model) {
    && (forall i :: 0 <= i < |m.lookups| ==> m.lookups[i] <= m.generation)
    && (forall i, j :: 0 <= i < j < |m.lookups| ==> m.lookups[i] != m.lookups[j])
    && (forall i :: 0 <= i < |m.lookups| && m.lookups[i] == m.generation ==> Quiet(m))
  }

  lemma RemoveKeepsDistinct(xs: seq<nat>, i: nat)
    requires i < |xs| && forall j, k :: 0 <= j < k < |xs| ==> xs[j] != xs[k]
    ensures var ys := Remove(xs, i);
            && (forall j, k :: 0 <= j < k < |ys| ==> ys[j] != ys[k])
            && (forall j :: 0 <= j < |ys| ==> ys[j] in xs && ys[j] != xs[i])
  {
  }

  lemma RemoveKeepsFence(m: Model, i: nat) returns (u: Model)
    requires LookupsFenced(m) && i < |m.lookups|
    ensures u == m.(lookups := Remove(m.lookups, i)) && LookupsFenced(u)
    ensures forall j :: 0 <= j < |u.lookups| ==> u.lookups[j] != m.lookups[i] && u.lookups[j] <= m.generation
  {
    RemoveKeepsDistinct(m.lookups, i);
    u := m.(lookups := Remove(m.lookups, i));
  }

  lemma LookupFences(m: Model, i: nat, found: bool, oracle: Oracle)
    requires Owned(m) && LookupsFenced(m) && DialAnswers(m) && i < |m.lookups|
    ensures LookupsFenced(LookupReturns(m, i, found, oracle).0)
    ensures DialAnswers(LookupReturns(m, i, found, oracle).0)
    ensures !FailsUnderStream(m, i, found)
  {
    var u := RemoveKeepsFence(m, i);
    if m.lookups[i] == m.generation && found {
      var v := AdvanceLifecycle(u).(roaming := true);
      SameKeeps(m, v);
      var t := InputKeeps(v, Answered, oracle);
    }
  }

  lemma OtherTurnsFence(m: Model, t: Turn, now: nat, oracle: Oracle)
    requires Owned(m) && LookupsFenced(m) && DialAnswers(m)
    requires Enabled(m, t) && !t.UserConnects? && !t.LookupDone?
    ensures LookupsFenced(Take(m, t, now, oracle)) && DialAnswers(Take(m, t, now, oracle))
  {
    var u := m;
    match t {
      case UserDisconnects => u := DisconnectKeeps(m);
      case UserReconnects => u := LossKeeps(m, oracle);
      case DialDone(id, error) => u := DialReturnsKeeps(m, id, error, now, oracle);
      case ScanDone(i, replaced) => u := ScanKeeps(m, i, replaced, oracle);
      case PolicyTicks => u := InputKeeps(m, Answered, oracle);
      case Delivered(id, e) => if Applies(m, id) { u := EventKeeps(m, e, now, oracle); }
    }
  }
}
