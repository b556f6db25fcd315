/** What one step of the roaming policy keeps. The invariant says that a wanted
    scan is in flight, scheduled or behind the one dial; that at most one dial
    is out, with no session standing; and that every timer is within its
    ladder's ceiling of the clock. Each transition is shown to keep it, and the
    theorems over runs read their facts off it. */
module RoamingSteps {
  import opened Wrappers
  import opened RoamingPolicy

  // ----- Invariants ---------------------------------------------------------

  /** Scans wanted are in flight, scheduled, or waiting on the one dial. */
  predicate Looking(p: Policy) {
    p.scanning ==> p.scanInFlight || p.nextScan.Some? || p.dialInFlight
  }

  /** A dial in flight means no session stands; what is remembered about a
      session belongs to a silent, standing one. */
  predicate Committed(p: Policy) {
    && (p.dialInFlight ==> !p.alive && p.dialTarget.Some?)
    && (p.alive && p.scanning ==> p.silent.Some?)
    && (p.remembered.Some? ==> p.alive && p.silent.Some?)
    && (p.establish.Some? ==> !p.alive && p.silent.None? && p.graceUntil.None?)
  }

  /** Every timer is within its ladder's ceiling of the clock. */
  predicate Timed(p: Policy, clock: nat) {
    && (p.silent.Some? ==> p.silent.value <= clock)
    && p.nextDial <= clock + p.cfg.dialCeiling
    && (p.nextScan.Some? ==> p.nextScan.value <= clock + p.cfg.scanCeiling)
    && p.dialRetry <= p.cfg.dialCeiling && p.scanInterval <= p.cfg.scanCeiling
  }

  predicate Inv(p: Policy, clock: nat) {
    p.cfg.Valid() && Looking(p) && Committed(p) && Timed(p, clock)
  }

  lemma GraceKeeps(p: Policy, now: nat) returns (q: Policy)
    requires Inv(p, now)
    ensures q == GraceStep(p, now).0 && Inv(q, now)
  {
    q := GraceStep(p, now).0;
  }

  lemma WakeKeeps(p: Policy, now: nat) returns (r: Policy)
    requires Inv(p, now)
    ensures r == Wake(p, now).0 && Inv(r, now)
  {
    var q := GraceKeeps(p, now);
    r := SilenceStep(q, now).0;
  }

  lemma JudgeKeeps(p: Policy, now: nat)
    requires Inv(p, now)
    ensures Inv(Judge(p, now).0, now)
  {}

  lemma TickKeeps(p: Policy, now: nat)
    requires Inv(p, now)
    ensures Inv(Tick(p, now).0, now)
  {
    if !BudgetOut(p, now) {
      var q := WakeKeeps(p, now);
      JudgeKeeps(q, now);
    }
  }

  lemma BeginKeeps(p: Policy, now: nat)
    requires p.cfg.Valid() && Looking(p) && Timed(p, now)
    requires Committed(p.(scanning := true))
    ensures Inv(BeginScanningIfNeeded(p).0, now)
  {}

  lemma ScanThenTickKeeps(p: Policy, now: nat)
    requires p.cfg.Valid() && Looking(p) && Timed(p, now)
    requires Committed(p.(scanning := true))
    ensures Inv(ScanThenTick(p, now).0, now)
  {
    BeginKeeps(p, now);
    TickKeeps(BeginScanningIfNeeded(p).0, now);
  }

  lemma RescheduleKeeps(p: Policy, now: nat)
    requires p.cfg.Valid() && Committed(p) && Timed(p, now)
    ensures Inv(Tick(ScheduleNextScan(p, now), now).0, now)
  {
    TickKeeps(ScheduleNextScan(p, now), now);
  }

  lemma DialSightingKeeps(p: Policy, s: Sighting, now: nat) returns (r: Policy)
    requires p.cfg.Valid() && Committed(p.(alive := false, remembered := None)) && Timed(p, now)
    requires !p.dialInFlight
    ensures r == DialSighting(p, s, now).0 && Inv(r, now)
  {
    var q := if s.address != p.lastAddress then p.(dialRetry := p.cfg.dialFloor, nextDial := now) else p;
    assert Timed(q, now);
    r := DialNow(q, s.address, s.port, true).0;
  }

  lemma ScanCompletedKeeps(p: Policy, sightings: seq<Sighting>, now: nat)
    requires Inv(p, now)
    ensures Inv(OnScanCompleted(p, sightings, now).0, now)
  {
    var q := p.(scanInFlight := false);
    if q.scanning {
      var found := Match(sightings, p.target);
      if found.None? {
        RescheduleKeeps(q, now);
      } else if !DialWorthy(q, found.value) {
        RescheduleKeeps(q.(remembered := found), now);
      } else if q.dialInFlight {
        RescheduleKeeps(if Some(found.value.address) != q.dialTarget then q.(held := found) else q, now);
      } else {
        var _ := DialSightingKeeps(q, found.value, now);
      }
    }
  }

  lemma RetryKeeps(p: Policy, now: nat)
    requires p.cfg.Valid() && Committed(p) && Timed(p, now) && !p.alive
    ensures Inv(ScanThenTick(BackOff(p, now), now).0, now)
  {
    ScanThenTickKeeps(BackOff(p, now), now);
  }

  lemma DialFailedKeeps(p: Policy, now: nat)
    requires Inv(p, now)
    ensures Inv(OnDialFailed(p, now).0, now)
  {
    if p.dialInFlight {
      var q := p.(dialInFlight := false, dialTarget := None);
      if q.establish.Some? && now >= q.establish.value {
      } else if q.held.Some? {
        var _ := DialSightingKeeps(q.(held := None), q.held.value, now);
      } else {
        RetryKeeps(q, now);
      }
    }
  }

  lemma SilenceKeeps(p: Policy, now: nat)
    requires Inv(p, now) && p.alive
    ensures Inv(Apply(p, WentSilent, now).0, now)
  {
    TickKeeps(if p.silent.None? then p.(silent := Some(now)) else p, now);
  }

  lemma PathChangedKeeps(p: Policy, now: nat)
    requires Inv(p, now)
    ensures Inv(OnPathChanged(p, now).0, now)
  {
    if p.alive && p.silent.Some? {
      ScanThenTickKeeps(p.(waived := true, graceUntil := None), now);
    }
  }

  lemma ManualKeeps(p: Policy, now: nat)
    requires Inv(p, now)
    ensures Inv(OnManualReconnect(p, now).0, now)
  {
    ScanThenTickKeeps(p.(alive := false, scanning := false, remembered := None,
                         scanInterval := p.cfg.scanFloor, dialRetry := p.cfg.dialFloor, nextDial := now), now);
  }

  lemma ApplyKeeps(p: Policy, input: Input, now: nat)
    requires Inv(p, now) && !input.Connect?
    ensures Inv(Apply(p, input, now).0, now)
  {
    match input
    case Connect =>
    case SessionEstablished(_, _) =>
    case WentSilent => if p.alive { SilenceKeeps(p, now); }
    case EvidenceReturned =>
    case SessionClosed => ScanThenTickKeeps(p.(alive := false, remembered := None), now);
    case PathChanged => PathChangedKeeps(p, now);
    case ManualReconnect => ManualKeeps(p, now);
    case ScanCompleted(sightings) => ScanCompletedKeeps(p, sightings, now);
    case DialFailed => DialFailedKeeps(p, now);
    case Ticked => TickKeeps(p, now);
  }

  // ----- Runs ---------------------------------------------------------------

  datatype Event = Event(input: Input, now: nat)

  /** After the window's first connect the clock only moves forward, and no
      second connect arrives. */
  predicate Ordered(events: seq<Event>, clock: nat) {
    events == [] ||
    (!events[0].input.Connect? && clock <= events[0].now && Ordered(events[1..], events[0].now))
  }

  function Run(p: Policy, events: seq<Event>): Policy
    decreases |events|
  {
    if events == [] then p
    else Run(Apply(p, events[0].input, events[0].now).0, events[1..])
  }

  /** A window's policy right after its first connect. */
  function Connected(cfg: Config, target: string, address: string, port: nat, now: nat): Policy {
    Apply(Fresh(cfg, target, address, port), Connect, now).0
  }

  lemma ConnectedInv(cfg: Config, target: string, address: string, port: nat, now: nat)
    requires cfg.Valid()
    ensures Inv(Connected(cfg, target, address, port, now), now)
    ensures Connected(cfg, target, address, port, now).dialInFlight
  {}

  lemma LaterInv(p: Policy, clock: nat, now: nat)
    requires Inv(p, clock) && clock <= now
    ensures Inv(p, now)
  {}

  // ----- Settling -----------------------------------------------------------

  /** No tick timer has run out at `now`, save perhaps the scan timer. */
  predicate Quiet(p: Policy, now: nat) {
    && !BudgetOut(p, now)
    && (p.graceUntil.Some? ==> now < p.graceUntil.value)
    && (SilenceDeadline(p).Some? ==> now < SilenceDeadline(p).value)
    && !RememberedDue(p, now) && !ProbeDue(p, now)
  }

  lemma GraceQuiets(p: Policy, now: nat) returns (q: Policy)
    requires Inv(p, now)
    ensures q == GraceStep(p, now).0 && Inv(q, now)
    ensures q.graceUntil.Some? ==> now < q.graceUntil.value
    ensures BudgetOut(q, now) == BudgetOut(p, now)
  {
    q := GraceKeeps(p, now);
  }

  lemma WakeQuiets(p: Policy, now: nat) returns (r: Policy)
    requires Inv(p, now)
    ensures r == Wake(p, now).0 && Inv(r, now)
    ensures r.graceUntil.Some? ==> now < r.graceUntil.value
    ensures SilenceDeadline(r).Some? ==> now < SilenceDeadline(r).value
    ensures BudgetOut(r, now) == BudgetOut(p, now)
  {
    var q := GraceQuiets(p, now);
    r := WakeKeeps(p, now);
  }

  lemma JudgeQuiets(p: Policy, now: nat) returns (r: Policy)
    requires Inv(p, now) && !BudgetOut(p, now)
    requires p.graceUntil.Some? ==> now < p.graceUntil.value
    requires SilenceDeadline(p).Some? ==> now < SilenceDeadline(p).value
    ensures r == Judge(p, now).0 && Inv(r, now) && Quiet(r, now)
  {
    r := Judge(p, now).0;
  }

  /** One tick leaves at most a scan due, and only when it dialed or gave up. */
  lemma TickQuiets(p: Policy, now: nat) returns (r: Policy)
    requires Inv(p, now)
    ensures r == Tick(p, now).0 && Inv(r, now) && Quiet(r, now)
    ensures ScanDue(r, now) ==> !BudgetOut(p, now) && Judge(Wake(p, now).0, now).1 != []
  {
    r := Tick(p, now).0;
    if !BudgetOut(p, now) {
      var a := WakeQuiets(p, now);
      var b := JudgeQuiets(a, now);
      assert r == ScanStep(b, now, Judge(a, now).1 != []).0;
    }
  }

  /** From a quiet state a tick only takes the due scan. */
  lemma QuietTick(p: Policy, now: nat)
    requires Inv(p, now) && Quiet(p, now)
    ensures Tick(p, now) == ScanStep(p, now, false)
  {
    var r := ScanStep(p, now, false);
    assert Wake(p, now).0 == p && Wake(p, now).1 == [];
    assert Judge(p, now).0 == p && Judge(p, now).1 == [];
    assert [] + ([] + r.1) == r.1;
  }

  lemma QuietScanSettles(p: Policy, now: nat)
    requires Inv(p, now) && Quiet(p, now)
    ensures var q := ScanStep(p, now, false).0;
      Quiet(q, now) && Inv(q, now) && !ScanDue(q, now)
  {}

  /** A first connect at 0 whose dial failed at 5: a scan is out, and the probe
      waits its floor. */
  lemma AfterFailedDial(cfg: Config) returns (p: Policy)
    requires cfg.Valid() && cfg.dialFloor == 2_000_000 && cfg.scanFloor == 1_000_000 && cfg.budget == 45_000_000
    ensures p == Apply(Connected(cfg, "host", "10.0.0.1", 7, 0), DialFailed, 5).0
    ensures p.cfg == cfg && !p.alive && !p.expired && p.establish == Some(45_000_000)
    ensures !p.dialInFlight && p.scanning && p.scanInFlight && p.nextDial == 2_000_005
    ensures p.scanInterval == 1_000_000 && p.graceUntil.None?
  {
    p := Apply(Connected(cfg, "host", "10.0.0.1", 7, 0), DialFailed, 5).0;
  }

  /** Its scan comes back empty a second later: both ladders now come due at once. */
  lemma AfterFruitlessScan(p: Policy) returns (q: Policy)
    requires !p.alive && !p.expired && p.establish == Some(45_000_000) && !p.dialInFlight && p.scanning
    requires p.nextDial == 2_000_005 && p.scanInterval == 1_000_000 && p.graceUntil.None?
    ensures q == Apply(p, ScanCompleted([]), 1_000_005).0
    ensures !q.alive && !q.expired && q.establish == Some(45_000_000) && !q.dialInFlight && q.scanning
    ensures !q.scanInFlight && q.nextScan == Some(2_000_005) && q.nextDial == 2_000_005 && q.graceUntil.None?
  {
    q := Apply(p, ScanCompleted([]), 1_000_005).0;
  }

  lemma BothComeDue(p: Policy)
    requires !p.alive && !p.expired && p.establish == Some(45_000_000) && !p.dialInFlight && p.scanning
    requires !p.scanInFlight && p.nextScan == Some(2_000_005) && p.nextDial == 2_000_005 && p.graceUntil.None?
    ensures Tick(Tick(p, 2_000_005).0, 2_000_005).1 == [BeginScan]
  {}

  lemma RunOfTwo(p: Policy, e: Event, f: Event)
    ensures Run(p, [e, f]) == Apply(Apply(p, e.input, e.now).0, f.input, f.now).0
    ensures !e.input.Connect? && !f.input.Connect? && e.now <= f.now ==> Ordered([e, f], 0)
  {
    assert [e, f][1..] == [f] && [f][1..] == [];
    assert Run(Apply(p, e.input, e.now).0, [f]) == Apply(Apply(p, e.input, e.now).0, f.input, f.now).0;
    assert !f.input.Connect? && e.now <= f.now ==> Ordered([f], e.now);
  }

  // ----- One dial at a time -------------------------------------------------

  function Dials(actions: seq<Action>): nat {
    if actions == [] then 0 else Count(actions[0].Dial?) + Dials(actions[1..])
  }

  lemma {:induction false} DialsAppend(a: seq<Action>, b: seq<Action>)
    ensures Dials(a + b) == Dials(a) + Dials(b)
  {
    if a == [] {
      assert a + b == b;
    } else {
      assert (a + b)[1..] == a[1..] + b;
      DialsAppend(a[1..], b);
    }
  }

  /** A dial is issued exactly when one goes into flight, and none comes home. */
  predicate Launches(p: Policy, r: Result) {
    Dials(r.1) + Count(p.dialInFlight) == Count(r.0.dialInFlight)
  }

  lemma ThenLaunches(p: Policy, a: Result, b: Result)
    requires Launches(p, a) && Launches(a.0, b)
    ensures Launches(p, Then(a, b))
  {
    DialsAppend(a.1, b.1);
  }

  lemma WakeLaunches(p: Policy, now: nat) returns (r: Result)
    ensures r == Wake(p, now) && Launches(p, r)
  {
    var g := GraceStep(p, now);
    ThenLaunches(p, g, SilenceStep(g.0, now));
    r := Wake(p, now);
  }

  lemma JudgeLaunches(p: Policy, now: nat) returns (r: Result)
    ensures r == Judge(p, now) && Launches(p, r)
  {
    var m := RememberedStep(p, now);
    ThenLaunches(p, m, ProbeStep(m.0, now));
    r := Judge(p, now);
  }

  lemma ScanStepLaunches(p: Policy, now: nat, dialed: bool) returns (r: Result)
    ensures r == ScanStep(p, now, dialed) && Launches(p, r)
  {
    r := ScanStep(p, now, dialed);
  }

  lemma TickLaunches(p: Policy, now: nat) returns (r: Result)
    ensures r == Tick(p, now) && Launches(p, r)
  {
    r := Tick(p, now);
    if !BudgetOut(p, now) {
      var a := WakeLaunches(p, now);
      var b := JudgeLaunches(a.0, now);
      var c := ScanStepLaunches(b.0, now, b.1 != []);
      ThenLaunches(a.0, b, c);
      ThenLaunches(p, a, Then(b, c));
    }
  }

  lemma ScanThenTickLaunches(p: Policy, now: nat) returns (r: Result)
    ensures r == ScanThenTick(p, now) && Launches(p, r)
  {
    var a := BeginScanningIfNeeded(p);
    var b := TickLaunches(a.0, now);
    ThenLaunches(p, a, b);
    r := Then(a, b);
  }

  /** The dial in flight is answered by this input. */
  predicate Answers(p: Policy, input: Input) {
    p.dialInFlight && (input.DialFailed? || input.SessionEstablished?)
  }

  lemma DialSightingLaunches(p: Policy, s: Sighting, now: nat) returns (r: Result)
    ensures r == DialSighting(p, s, now) && Launches(p, r)
  {
    r := DialSighting(p, s, now);
  }

  lemma ScanCompletedLaunches(p: Policy, sightings: seq<Sighting>, now: nat) returns (r: Result)
    ensures r == OnScanCompleted(p, sightings, now) && Launches(p, r)
  {
    r := OnScanCompleted(p, sightings, now);
    var q := p.(scanInFlight := false);
    var found := Match(sightings, p.target);
    if !q.scanning {
    } else if found.None? {
      var _ := TickLaunches(ScheduleNextScan(q, now), now);
    } else if !DialWorthy(q, found.value) {
      var _ := TickLaunches(ScheduleNextScan(q.(remembered := found), now), now);
    } else if q.dialInFlight {
      var h := if Some(found.value.address) != q.dialTarget then q.(held := found) else q;
      var _ := TickLaunches(ScheduleNextScan(h, now), now);
    } else {
      var _ := DialSightingLaunches(q, found.value, now);
    }
  }

  lemma DialFailedLaunches(p: Policy, now: nat) returns (r: Result)
    requires p.dialInFlight
    ensures r == OnDialFailed(p, now) && Launches(p.(dialInFlight := false), r)
  {
    r := OnDialFailed(p, now);
    var q := p.(dialInFlight := false, dialTarget := None);
    if q.establish.Some? && now >= q.establish.value {
    } else if q.held.Some? {
      var _ := DialSightingLaunches(q.(held := None), q.held.value, now);
    } else {
      var _ := ScanThenTickLaunches(BackOff(q, now), now);
    }
  }

  lemma PathChangedLaunches(p: Policy, now: nat) returns (r: Result)
    ensures r == OnPathChanged(p, now) && Launches(p, r)
  {
    r := OnPathChanged(p, now);
    var _ := ScanThenTickLaunches(p.(waived := true, graceUntil := None), now);
  }

  lemma ConnectLaunches(p: Policy, now: nat) returns (r: Result)
    ensures r == Apply(p, Connect, now) && Launches(p, r)
  {
    r := TickLaunches(Connecting(p, now), now);
  }

  lemma SilenceLaunches(p: Policy, now: nat) returns (r: Result)
    ensures r == Apply(p, WentSilent, now) && Launches(p, r)
  {
    if p.alive {
      r := TickLaunches(if p.silent.None? then p.(silent := Some(now)) else p, now);
    } else {
      r := (p, []);
    }
  }

  lemma LossLaunches(p: Policy, input: Input, now: nat) returns (r: Result)
    requires input.SessionClosed? || input.ManualReconnect?
    ensures r == Apply(p, input, now) && Launches(p, r)
  {
    r := Apply(p, input, now);
    if input.SessionClosed? {
      var _ := ScanThenTickLaunches(p.(alive := false, remembered := None), now);
    } else {
      var _ := ScanThenTickLaunches(p.(alive := false, scanning := false, remembered := None,
                                       scanInterval := p.cfg.scanFloor, dialRetry := p.cfg.dialFloor,
                                       nextDial := now), now);
    }
  }

  lemma ApplyLaunches(p: Policy, input: Input, now: nat) returns (r: Result)
    ensures r == Apply(p, input, now)
    ensures Launches(if Answers(p, input) then p.(dialInFlight := false) else p, r)
  {
    match input
    case SessionEstablished(_, _) => r := Apply(p, input, now);
    case EvidenceReturned => r := Apply(p, input, now);
    case SessionClosed => r := LossLaunches(p, input, now);
    case ManualReconnect => r := LossLaunches(p, input, now);
    case PathChanged => r := PathChangedLaunches(p, now);
    case ScanCompleted(sightings) => r := ScanCompletedLaunches(p, sightings, now);
    case DialFailed => if p.dialInFlight { r := DialFailedLaunches(p, now); } else { r := Apply(p, input, now); }
    case Connect => r := ConnectLaunches(p, now);
    case WentSilent => r := SilenceLaunches(p, now);
    case Ticked => r := TickLaunches(p, now);
  }

  // ----- A standing session is torn down only on evidence -------------------

  /** The parts of a policy that decide a teardown. */
  predicate SameStanding(p: Policy, q: Policy) {
    && q.cfg == p.cfg && q.alive == p.alive && q.dialInFlight == p.dialInFlight
    && q.silent == p.silent && q.remembered == p.remembered
    && (p.alive && p.silent.Some? ==> q.waived == p.waived)
  }

  lemma GraceSpares(p: Policy, now: nat) returns (r: Policy)
    requires Inv(p, now)
    ensures r == GraceStep(p, now).0 && SameStanding(p, r)
  {
    r := GraceStep(p, now).0;
  }

  lemma WakeSpares(p: Policy, now: nat) returns (r: Policy)
    requires Inv(p, now)
    ensures r == Wake(p, now).0 && SameStanding(p, r)
  {
    var q := GraceSpares(p, now);
    r := SilenceStep(q, now).0;
  }

  // ----- After the budget ---------------------------------------------------

  /** The state an expiry leaves: nothing standing, wanted or out. */
  predicate Buried(p: Policy) {
    && p.expired && !p.alive && !p.scanning && !p.dialInFlight
    && p.establish.None? && p.graceUntil.None? && p.remembered.None?
  }

  lemma BuriedTick(p: Policy, now: nat)
    requires Buried(p)
    ensures Tick(p, now) == (p, [])
  {
    assert Wake(p, now).0 == p && Wake(p, now).1 == [];
    assert Judge(p, now).0 == p && Judge(p, now).1 == [];
  }

  // ----- While a dial is out -------------------------------------------------

  /** The dial still awaits its answer through this input. */
  predicate Awaits(input: Input) {
    !input.Connect? && !input.SessionEstablished? && !input.DialFailed?
  }

  /** Nothing about the dial, what is held for it, or the budget has moved. */
  predicate SameDial(p: Policy, q: Policy) {
    && q.dialInFlight == p.dialInFlight && q.dialTarget == p.dialTarget && q.held == p.held
    && q.establish == p.establish && q.alive == p.alive
  }

  lemma WakeLeavesDial(p: Policy, now: nat) returns (q: Policy, actions: seq<Action>)
    ensures (q, actions) == Wake(p, now) && SameDial(p, q) && Expired !in actions
  {
    var a := GraceStep(p, now);
    assert SameDial(p, a.0) && Expired !in a.1;
    var b := SilenceStep(a.0, now);
    assert SameDial(a.0, b.0) && Expired !in b.1;
    q, actions := b.0, a.1 + b.1;
  }

  lemma TickMidDial(p: Policy, now: nat) returns (q: Policy)
    requires p.dialInFlight
    ensures q == Tick(p, now).0 && SameDial(p, q)
  {
    var a, actions := WakeLeavesDial(p, now);
    assert Judge(a, now).0 == a;
    q := ScanStep(a, now, Judge(a, now).1 != []).0;
  }

  /** Mid-dial, a wanted scan's match somewhere else than the dial's target is held;
      nothing else changes what is. */
  function NextHeld(p: Policy, input: Input, held: Option<Sighting>): Option<Sighting> {
    if input.ScanCompleted? && p.scanning && Match(input.sightings, p.target).Some?
       && Some(Match(input.sightings, p.target).value.address) != p.dialTarget
    then Match(input.sightings, p.target)
    else held
  }

  lemma ScanMidDialHolds(p: Policy, sightings: seq<Sighting>, now: nat)
    requires p.dialInFlight && !p.alive
    ensures var q := OnScanCompleted(p, sightings, now).0;
      q.dialInFlight && q.establish == p.establish && q.held == NextHeld(p, ScanCompleted(sightings), p.held)
  {
    var q, found := p.(scanInFlight := false), Match(sightings, p.target);
    var a := TickMidDial(ScheduleNextScan(q, now), now);
    var b := TickMidDial(ScheduleNextScan(q.(held := found), now), now);
  }

  lemma ScanThenTickMidDial(p: Policy, now: nat) returns (q: Policy)
    requires p.dialInFlight
    ensures q == ScanThenTick(p, now).0 && SameDial(p, q)
  {
    q := TickMidDial(BeginScanningIfNeeded(p).0, now);
  }

  lemma MidDialHolds(p: Policy, input: Input, now: nat)
    requires Inv(p, now) && p.dialInFlight && Awaits(input)
    ensures var q := Apply(p, input, now).0;
      q.dialInFlight && q.establish == p.establish && q.held == NextHeld(p, input, p.held)
  {
    match input
    case WentSilent =>
    case EvidenceReturned =>
    case SessionClosed => var q := ScanThenTickMidDial(p.(alive := false, remembered := None), now);
    case PathChanged =>
    case ManualReconnect =>
      var q := ScanThenTickMidDial(p.(alive := false, scanning := false, remembered := None,
        scanInterval := p.cfg.scanFloor, dialRetry := p.cfg.dialFloor, nextDial := now), now);
    case ScanCompleted(sightings) => ScanMidDialHolds(p, sightings, now);
    case Ticked => var q := TickMidDial(p, now);
  }

  // ----- Without a budget ---------------------------------------------------

  lemma JudgeNeverExpires(p: Policy, now: nat)
    ensures Judge(p, now).0.establish == p.establish && Expired !in Judge(p, now).1
  {}

  /** The input was answered without setting a budget or giving up. */
  predicate Unbudgeted(r: Result) {
    r.0.establish.None? && Expired !in r.1
  }

  lemma TickNeverExpires(p: Policy, now: nat) returns (r: Result)
    requires p.establish.None?
    ensures r == Tick(p, now) && Unbudgeted(r)
  {
    var a, actions := WakeLeavesDial(p, now);
    JudgeNeverExpires(a, now);
    r := Tick(p, now);
  }

  lemma ScanThenTickNeverExpires(p: Policy, now: nat) returns (r: Result)
    requires p.establish.None?
    ensures r == ScanThenTick(p, now) && Unbudgeted(r)
  {
    var a := BeginScanningIfNeeded(p);
    r := TickNeverExpires(a.0, now);
    r := Then(a, r);
  }

  /** Without a budget no input but a connect sets one or gives up. */
  lemma UnbudgetedNeverExpires(p: Policy, input: Input, now: nat) returns (r: Result)
    requires p.establish.None? && !input.Connect?
    ensures r == Apply(p, input, now) && Unbudgeted(r)
  {
    match input
    case WentSilent =>
      r := TickNeverExpires(if p.silent.None? then p.(silent := Some(now)) else p, now);
      r := Apply(p, input, now);
    case SessionClosed => r := ScanThenTickNeverExpires(p.(alive := false, remembered := None), now);
    case PathChanged =>
      r := ScanThenTickNeverExpires(p.(waived := true, graceUntil := None), now);
      r := OnPathChanged(p, now);
    case ManualReconnect =>
      r := ScanThenTickNeverExpires(p.(alive := false, scanning := false, remembered := None,
        scanInterval := p.cfg.scanFloor, dialRetry := p.cfg.dialFloor, nextDial := now), now);
    case ScanCompleted(sightings) => r := ScanNeverExpires(p, sightings, now);
    case DialFailed => r := DialFailureNeverExpires(p, now);
    case Ticked => r := TickNeverExpires(p, now);
    case _ => r := Apply(p, input, now);
  }

  lemma DialFailureNeverExpires(p: Policy, now: nat) returns (r: Result)
    requires p.establish.None?
    ensures r == OnDialFailed(p, now) && Unbudgeted(r)
  {
    r := ScanThenTickNeverExpires(BackOff(p.(dialInFlight := false, dialTarget := None), now), now);
    r := OnDialFailed(p, now);
  }

  lemma ScanNeverExpires(p: Policy, sightings: seq<Sighting>, now: nat) returns (r: Result)
    requires p.establish.None?
    ensures r == OnScanCompleted(p, sightings, now) && Unbudgeted(r)
  {
    var q, found := p.(scanInFlight := false), Match(sightings, p.target);
    var resumed :=
      if found.None? then q
      else if !DialWorthy(q, found.value) then q.(remembered := found)
      else if Some(found.value.address) != q.dialTarget then q.(held := found) else q;
    if q.scanning && (found.None? || !DialWorthy(q, found.value) || q.dialInFlight) {
      r := TickNeverExpires(ScheduleNextScan(resumed, now), now);
    } else {
      r := OnScanCompleted(p, sightings, now);
    }
  }
}
