/** The window's session lifecycle: one dial driver, asynchronous completions
    fenced by generations, and events fenced by epochs. Every turn of the main
    actor is one step; any interleaving of turns is allowed. */
module ConnectionModel {
  import opened Wrappers

  datatype Phase = PickHost | Connecting | Streaming | Failed

  datatype End = Goodbye | Silent

  /** What became of a session. The last four are endings: abandoned while
      dialing, detached while attached, failed by its own dial, or started for
      a window that had moved on. */
  datatype Fate = Dialing | Attached | Abandoned | Detached | FailedDial | Orphaned

  /** One session built. `endings` counts the ends it was sent; `returned` says
      its start completed. */
  datatype Session = Session(epoch: nat, generation: nat, fate: Fate, endings: nat, returned: bool)

  datatype CloseReason = LocalTeardown(corePoisoned: bool) | TakenOver | ShuttingDown | LivenessTimeout

  datatype Event =
    | CapabilitiesFailed(redial: bool)
    | Closed(reason: CloseReason)
    | StateChanged(frozen: bool)
    | OrderedStreamPoisoned
    | OtherEvent

  /** What the roaming policy asks for; a dial says how far it gets. */
  datatype Action = BeginScan | Dial(pinned: bool, ready: bool) | Expired

  /** The policy's answers, one per interaction, in order. */
  type Oracle = seq<seq<Action>>

  datatype Input = Answered | Established

  datatype Model = Model(
    phase: Phase, generation: nat, epoch: nat,
    sessions: seq<Session>, attached: Option<nat>, dialing: Option<nat>,
    roaming: bool, pendingTerminal: Option<Event>, poisoned: bool, poisonedEnds: seq<nat>,
    scans: seq<nat>, lookups: seq<nat>, holds: int)

  const Start := Model(PickHost, 0, 0, [], None, None, false, None, false, [], [], [], 0)

  // ----- Ends ---------------------------------------------------------------

  /** endSession: the services are told once more; `fate` is why. */
  function EndOne(m: Model, id: nat, fate: Fate): Model {
    if id < |m.sessions| then
      var s := m.sessions[id];
      m.(sessions := m.sessions[id := s.(fate := fate, endings := s.endings + 1)])
    else m
  }

  function AbandonDial(m: Model): Model {
    match m.dialing
    case None => m
    case Some(id) => EndOne(m.(dialing := None, epoch := m.epoch + 1), id, Abandoned)
  }

  function Detach(m: Model): Model {
    match m.attached
    case None => m
    case Some(id) => EndOne(m.(attached := None, epoch := m.epoch + 1), id, Detached)
  }

  function AdvanceLifecycle(m: Model): Model {
    m.(generation := m.generation + 1)
  }

  function StopRoaming(m: Model): Model {
    AdvanceLifecycle(m).(roaming := false)
  }

  function EndLyteSession(m: Model, failed: bool): Model {
    if m.attached.None? && !m.roaming then m
    else
      var t := Detach(StopRoaming(AbandonDial(m)));
      t.(holds := t.holds - Count(m.phase.Streaming?), phase := if failed then Failed else PickHost)
  }

  function Disconnect(m: Model): Model {
    var t := AdvanceLifecycle(AbandonDial(m));
    EndLyteSession(if t.phase.Connecting? then t.(phase := PickHost) else t, false)
  }

  // ----- Dials and the policy -----------------------------------------------

  function MakeSession(m: Model): Model {
    m.(epoch := m.epoch + 1, pendingTerminal := None, poisoned := false,
       sessions := m.sessions + [Session(m.epoch + 1, m.generation, Dialing, 0, false)],
       dialing := Some(|m.sessions|))
  }

  /** One policy interaction and everything it sets off before the turn ends. */
  function RoamingInput(m: Model, input: Input, oracle: Oracle): (r: (Model, Oracle))
    ensures |r.1| <= |oracle|
    decreases |oracle|, 0
  {
    if !m.roaming || input.Established? || oracle == [] then (m, oracle)
    else RunActions(m, oracle[0], oracle[1..])
  }

  function RunActions(m: Model, actions: seq<Action>, oracle: Oracle): (r: (Model, Oracle))
    ensures |r.1| <= |oracle|
    decreases |oracle|, |actions| + 2
  {
    if actions == [] then (m, oracle)
    else
      var (t, rest) := RunAction(m, actions[0], oracle);
      RunActions(t, actions[1..], rest)
  }

  function RunAction(m: Model, action: Action, oracle: Oracle): (r: (Model, Oracle))
    ensures |r.1| <= |oracle|
    decreases |oracle|, 1
  {
    match action
    case BeginScan => (m.(scans := m.scans + [m.generation]), oracle)
    case Expired => (EndLyteSession(m, true), oracle)
    case Dial(pinned, ready) =>
      var d := Detach(m);
      if !pinned then (EndLyteSession(d, true), oracle)
      else if !ready then RoamingInput(d, Answered, oracle)
      else (MakeSession(AbandonDial(d)), oracle)
  }

  function BeginRoamingAfterLoss(m: Model, oracle: Oracle): (Model, Oracle) {
    if !m.roaming then (m, oracle) else RoamingInput(Detach(m), Answered, oracle)
  }

  function ReconnectNow(m: Model, oracle: Oracle): (Model, Oracle) {
    if !m.roaming then (m, oracle) else RoamingInput(Detach(m), Answered, oracle)
  }

  // ----- Session events -----------------------------------------------------

  const POISON_WINDOW: nat := 60_000_000

  function Recent(ends: seq<nat>, now: nat): seq<nat> {
    if ends == [] then []
    else if now >= ends[0] + POISON_WINDOW then Recent(ends[1..], now)
    else [ends[0]] + Recent(ends[1..], now)
  }

  /** A first poisoned end roams; a repeat inside the window ends it. */
  function EndAfterPoisonedStream(m: Model, now: nat, oracle: Oracle): (Model, Oracle) {
    var ends := Recent(m.poisonedEnds, now) + [now];
    if |ends| <= 1 then BeginRoamingAfterLoss(m.(poisonedEnds := ends), oracle)
    else (EndLyteSession(m.(poisonedEnds := []), true), oracle)
  }

  predicate EndsSession(e: Event) {
    e.CapabilitiesFailed? || e.Closed?
  }

  function HandleClose(m: Model, reason: CloseReason, now: nat, oracle: Oracle): (Model, Oracle) {
    match reason
    case LocalTeardown(corePoisoned) =>
      if m.poisoned || corePoisoned then EndAfterPoisonedStream(m, now, oracle) else (m, oracle)
    case TakenOver => (EndLyteSession(m, true), oracle)
    case ShuttingDown => BeginRoamingAfterLoss(m, oracle)
    case LivenessTimeout => BeginRoamingAfterLoss(m, oracle)
  }

  function HandleEvent(m: Model, e: Event, now: nat, oracle: Oracle): (Model, Oracle) {
    if m.attached.None? && EndsSession(e) then
      (if m.pendingTerminal.None? then m.(pendingTerminal := Some(e)) else m, oracle)
    else
      match e
      case CapabilitiesFailed(redial) =>
        if redial && m.roaming then ReconnectNow(m, oracle) else (EndLyteSession(m, true), oracle)
      case StateChanged(_) => RoamingInput(m, Answered, oracle)
      case OrderedStreamPoisoned => (m.(poisoned := true), oracle)
      case Closed(reason) => HandleClose(m, reason, now, oracle)
      case OtherEvent => (m, oracle)
  }

  function ReplayPendingTerminal(m: Model, now: nat, oracle: Oracle): (Model, Oracle) {
    match m.pendingTerminal
    case None => (m, oracle)
    case Some(e) =>
      var t := m.(pendingTerminal := None);
      if e.Closed? && e.reason.LocalTeardown? then
        if t.poisoned then EndAfterPoisonedStream(t, now, oracle) else BeginRoamingAfterLoss(t, oracle)
      else HandleEvent(t, e, now, oracle)
  }

  // ----- Completions --------------------------------------------------------

  datatype DialError = Unanswered | LocalNetwork | Refused

  function DialFailed(m: Model, error: DialError, oracle: Oracle): (Model, Oracle) {
    if m.phase.Connecting? && !error.Unanswered? then (EndLyteSession(m, true), oracle)
    else RoamingInput(m, Answered, oracle)
  }

  /** A claimed session with a live owner: attach, and the first opens the
      stream; an end it met meanwhile is replayed last. */
  function Adopt(m: Model, id: nat, now: nat, oracle: Oracle): (Model, Oracle)
    requires id < |m.sessions|
  {
    var a := m.(attached := Some(id), sessions := m.sessions[id := m.sessions[id].(fate := Attached)]);
    var (b, rest) := RoamingInput(a, Established, oracle);
    var c := if m.phase.Connecting? then b.(phase := Streaming, holds := b.holds + 1) else b;
    ReplayPendingTerminal(c, now, rest)
  }

  function DialReturns(m: Model, id: nat, error: Option<DialError>, now: nat, oracle: Oracle): (Model, Oracle)
    requires id < |m.sessions|
  {
    var r := m.(sessions := m.sessions[id := m.sessions[id].(returned := true)]);
    if r.dialing != Some(id) then (r, oracle)          // abandoned: already ended
    else
      var c := r.(dialing := None);
      var current := c.sessions[id].generation == c.generation;
      match error
      case Some(why) =>
        var f := EndOne(c, id, FailedDial);
        if current then DialFailed(f, why, oracle) else (f, oracle)
      case None =>
        if current && c.attached.None? then Adopt(c, id, now, oracle)
        else (EndOne(c, id, Orphaned), oracle)
  }

  function Remove(xs: seq<nat>, i: nat): seq<nat>
    requires i < |xs|
  {
    xs[..i] + xs[i + 1..]
  }

  function ScanReturns(m: Model, i: nat, replaced: bool, oracle: Oracle): (Model, Oracle)
    requires i < |m.scans|
  {
    var t := m.(scans := Remove(m.scans, i));
    if m.scans[i] != m.generation then (t, oracle)
    else if replaced then (EndLyteSession(t, true), oracle)
    else RoamingInput(t, Answered, oracle)
  }

  function ConnectLyte(m: Model, paired: bool): Model {
    var t := AdvanceLifecycle(AbandonDial(m));
    if !paired then t.(phase := Failed)
    else t.(phase := Connecting, poisonedEnds := [], lookups := t.lookups + [t.generation])
  }

  function LookupReturns(m: Model, i: nat, found: bool, oracle: Oracle): (Model, Oracle)
    requires i < |m.lookups|
  {
    var t := m.(lookups := Remove(m.lookups, i));
    if m.lookups[i] != m.generation then (t, oracle)
    else if !found then (t.(phase := Failed), oracle)
    else RoamingInput(AdvanceLifecycle(t).(roaming := true), Answered, oracle)
  }

  // ----- Turns --------------------------------------------------------------

  datatype Turn =
    | UserConnects(paired: bool)
    | UserDisconnects
    | UserReconnects
    | LookupDone(index: nat, found: bool)
    | DialDone(id: nat, error: Option<DialError>)
    | ScanDone(index: nat, replaced: bool)
    | PolicyTicks                                   // its deadline, or a path change
    | Delivered(id: nat, event: Event)              // from any session ever built

  predicate Enabled(m: Model, t: Turn) {
    match t
    case LookupDone(i, _) => i < |m.lookups|
    case DialDone(id, _) => id < |m.sessions| && !m.sessions[id].returned
    case ScanDone(i, _) => i < |m.scans|
    case Delivered(id, _) => id < |m.sessions|
    case _ => true
  }

  /** A detached or abandoned session's stragglers must not touch the model. */
  predicate Applies(m: Model, id: nat)
    requires id < |m.sessions|
  {
    m.sessions[id].epoch == m.epoch
  }

  function Take(m: Model, t: Turn, now: nat, oracle: Oracle): Model {
    if !Enabled(m, t) then m
    else
      match t
      case UserConnects(paired) => ConnectLyte(m, paired)
      case UserDisconnects => Disconnect(m)
      case UserReconnects => ReconnectNow(m, oracle).0
      case LookupDone(i, found) => LookupReturns(m, i, found, oracle).0
      case DialDone(id, error) => DialReturns(m, id, error, now, oracle).0
      case ScanDone(i, replaced) => ScanReturns(m, i, replaced, oracle).0
      case PolicyTicks => RoamingInput(m, Answered, oracle).0
      case Delivered(id, e) => if Applies(m, id) then HandleEvent(m, e, now, oracle).0 else m
  }

  datatype Step = Step(turn: Turn, now: nat, oracle: Oracle)

  function Run(steps: seq<Step>): Model {
    if steps == [] then Start
    else
      var s := steps[|steps| - 1];
      Take(Run(steps[..|steps| - 1]), s.turn, s.now, s.oracle)
  }
}
