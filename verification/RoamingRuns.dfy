/** What the roaming policy keeps over every run: it never goes dark, it never
    has two dials out, and it tears a standing session down only on evidence. */
module RoamingRuns {
  import opened Wrappers
  import opened RoamingPolicy
  import opened RoamingSteps

  // ----- Runs ---------------------------------------------------------------

  function Clock(events: seq<Event>, clock: nat): nat {
    if events == [] then clock else Clock(events[1..], events[0].now)
  }

  lemma {:induction false} RunKeeps(p: Policy, events: seq<Event>, clock: nat)
    requires Inv(p, clock) && Ordered(events, clock)
    ensures Inv(Run(p, events), Clock(events, clock))
    decreases |events|
  {
    if events != [] {
      var e := events[0];
      LaterInv(p, clock, e.now);
      ApplyKeeps(p, e.input, e.now);
      RunKeeps(Apply(p, e.input, e.now).0, events[1..], e.now);
    }
  }

  /** Never dark: at any point of any run, a dead session the budget has not
      buried has a dial out or a deadline within the dial ceiling; scans wanted
      and not waiting on that dial are in flight or due within the scan ceiling;
      and a silent session has a scan out or a deadline. */
  lemma NeverDark(cfg: Config, target: string, address: string, port: nat, start: nat, events: seq<Event>)
    requires cfg.Valid() && Ordered(events, start)
    ensures var p := Run(Connected(cfg, target, address, port, start), events);
      var now := Clock(events, start);
      && (!p.alive && !p.expired ==>
            p.dialInFlight || (NextDeadline(p).Some? && NextDeadline(p).value <= now + p.cfg.dialCeiling))
      && (p.scanning ==>
            p.dialInFlight || p.scanInFlight
            || (NextDeadline(p).Some? && NextDeadline(p).value <= now + p.cfg.scanCeiling))
      && (p.alive && p.silent.Some? && !p.scanning ==>
            NextDeadline(p).Some? && NextDeadline(p).value <= now + p.cfg.scanAfter)
  {
    ConnectedInv(cfg, target, address, port, start);
    RunKeeps(Connected(cfg, target, address, port, start), events, start);
  }

  /** Right after the first connect everything hangs on its dial: there is no deadline
      and no beat does anything until that dial is answered. */
  lemma ConnectWaitsOnItsDial(cfg: Config, target: string, address: string, port: nat, start: nat, now: nat)
    requires cfg.Valid()
    ensures var p := Connected(cfg, target, address, port, start);
      p.dialInFlight && NextDeadline(p).None? && Tick(p, now) == (p, [])
  {
    var p := Connected(cfg, target, address, port, start);
    assert Wake(p, now).0 == p && Wake(p, now).1 == [];
    assert Judge(p, now).0 == p && Judge(p, now).1 == [];
  }

  // ----- What a due deadline does -------------------------------------------

  /** A due probe is taken: the tick ends by dialing, or by giving up. */
  lemma DueProbeActs(p: Policy, now: nat)
    requires Inv(p, now) && ProbePending(p) && p.nextDial <= now
    ensures var r := Tick(p, now);
      r.1 != [] && if BudgetOut(p, now) then r.0.expired && r.1 == [Expired]
                   else r.0.dialInFlight && r.1[|r.1| - 1] == Dial(p.lastAddress, p.lastPort, false)
  {
    if !BudgetOut(p, now) {
      var q := WakeKeeps(p, now);
      var (r, dials) := Judge(q, now);
      assert r.dialInFlight && dials == [Dial(p.lastAddress, p.lastPort, false)];
    }
  }

  // ----- Settling -----------------------------------------------------------

  /** Two ticks at one instant leave nothing due: a third does nothing, and the
      next deadline is later. */
  lemma TwoTicksSettle(p: Policy, now: nat)
    requires Inv(p, now)
    ensures var q := Tick(Tick(p, now).0, now).0;
      Tick(q, now) == (q, []) && (NextDeadline(q).Some? ==> now < NextDeadline(q).value)
  {
    var r := TickQuiets(p, now);
    QuietTick(r, now);
    QuietScanSettles(r, now);
    var q := ScanStep(r, now, false).0;
    QuietTick(q, now);
  }

  /** A tick is idempotent at one instant exactly unless it dialed over a due
      scan, which the dial postpones to the next call. */
  lemma SecondTickActsIff(p: Policy, now: nat)
    requires Inv(p, now)
    ensures var r := Tick(p, now).0;
      Tick(r, now) != (r, []) <==>
        !BudgetOut(p, now) && Judge(Wake(p, now).0, now).1 != [] && ScanDue(Wake(p, now).0, now)
  {
    var r := TickQuiets(p, now);
    QuietTick(r, now);
  }

  /** The comment at the tick promises idempotence. This run breaks it: a failed
      first dial, a fruitless scan, and both ladders come due together. */
  lemma TickIsNotIdempotent()
    ensures exists events: seq<Event>, now: nat ::
      Ordered(events, 0)
      && Tick(Tick(Run(Connected(DefaultConfig(), "host", "10.0.0.1", 7, 0), events), now).0, now).1 == [BeginScan]
  {
    var cfg := DefaultConfig();
    var failed, fruitless := Event(DialFailed, 5), Event(ScanCompleted([]), 1_000_005);
    RunOfTwo(Connected(cfg, "host", "10.0.0.1", 7, 0), failed, fruitless);
    var p1 := AfterFailedDial(cfg);
    var p2 := AfterFruitlessScan(p1);
    BothComeDue(p2);
    assert Ordered([failed, fruitless], 0);
  }

  // ----- One dial at a time -------------------------------------------------

  function Issued(p: Policy, events: seq<Event>): nat
    decreases |events|
  {
    if events == [] then 0
    else var r := Apply(p, events[0].input, events[0].now); Dials(r.1) + Issued(r.0, events[1..])
  }

  function Answered(p: Policy, events: seq<Event>): nat
    decreases |events|
  {
    if events == [] then 0
    else Count(Answers(p, events[0].input)) + Answered(Apply(p, events[0].input, events[0].now).0, events[1..])
  }

  /** At most one dial is ever out: over any run whatever, those issued are those
      answered plus the one in flight. */
  lemma {:induction false} OneDialAtATime(p: Policy, events: seq<Event>)
    ensures Issued(p, events) + Count(p.dialInFlight) == Answered(p, events) + Count(Run(p, events).dialInFlight)
    decreases |events|
  {
    if events != [] {
      var r := ApplyLaunches(p, events[0].input, events[0].now);
      OneDialAtATime(r.0, events[1..]);
    }
  }

  // ----- A sighting held mid-dial -------------------------------------------

  predicate AllAwait(events: seq<Event>) {
    forall i :: 0 <= i < |events| ==> Awaits(events[i].input)
  }

  /** The newest sighting the scans of such a run brought from elsewhere, or what was
      held before. */
  function HeldOver(p: Policy, events: seq<Event>, held: Option<Sighting>): Option<Sighting>
    decreases |events|
  {
    if events == [] then held
    else HeldOver(Apply(p, events[0].input, events[0].now).0, events[1..], NextHeld(p, events[0].input, held))
  }

  lemma {:induction false} MidDialRunHolds(p: Policy, events: seq<Event>, clock: nat)
    requires Inv(p, clock) && Ordered(events, clock) && p.dialInFlight && AllAwait(events)
    ensures var q := Run(p, events);
      q.dialInFlight && q.establish == p.establish && q.held == HeldOver(p, events, p.held)
    decreases |events|
  {
    if events != [] {
      var e := events[0];
      LaterInv(p, clock, e.now);
      ApplyKeeps(p, e.input, e.now);
      MidDialHolds(p, e.input, e.now);
      MidDialRunHolds(Apply(p, e.input, e.now).0, events[1..], e.now);
    }
  }

  /** However long a dial was out and whatever happened meanwhile: the moment it fails
      the newest sighting held is dialed, unless the establishment budget ran out,
      and then the policy gives up. */
  lemma HeldSightingIsDialed(p: Policy, events: seq<Event>, clock: nat, now: nat)
    requires Inv(p, clock) && Ordered(events, clock) && p.dialInFlight && AllAwait(events)
    ensures var held, r := HeldOver(p, events, p.held), Apply(Run(p, events), DialFailed, now);
      if p.establish.Some? && now >= p.establish.value then r.1 == [Expired]
      else held.Some? ==>
        r.1 == [Dial(held.value.address, held.value.port, true)] && r.0.dialInFlight && r.0.held.None?
  {
    MidDialRunHolds(p, events, clock);
  }

  // ----- Established, the budget is lifted ----------------------------------

  function Actions(p: Policy, events: seq<Event>): seq<Action>
    decreases |events|
  {
    if events == [] then []
    else
      var r := Apply(p, events[0].input, events[0].now);
      r.1 + Actions(r.0, events[1..])
  }

  lemma {:induction false} UnbudgetedRunNeverExpires(p: Policy, events: seq<Event>, clock: nat)
    requires p.establish.None? && Ordered(events, clock)
    ensures Expired !in Actions(p, events)
    decreases |events|
  {
    if events != [] {
      var r := UnbudgetedNeverExpires(p, events[0].input, events[0].now);
      UnbudgetedRunNeverExpires(r.0, events[1..], events[0].now);
    }
  }

  /** Once a session is established there is no giving up, over any run, however
      often the session is lost again. */
  lemma EstablishedNeverGivesUp(p: Policy, address: string, port: nat, now: nat, events: seq<Event>)
    requires Ordered(events, now)
    ensures Expired !in Actions(Apply(p, SessionEstablished(address, port), now).0, events)
  {
    UnbudgetedRunNeverExpires(Apply(p, SessionEstablished(address, port), now).0, events, now);
  }

  // ----- A standing session is torn down only on evidence -------------------

  /** A tick gives a standing session up exactly for a remembered same-address
      sighting that outwaited the silence threshold. */
  lemma TickTearsDownIff(p: Policy, now: nat)
    requires Inv(p, now) && p.alive
    ensures !Tick(p, now).0.alive <==> RememberedDue(p, now)
  {
    var q := WakeSpares(p, now);
  }

  /** The scan saw the host somewhere else, or our own address moved. */
  predicate HostMoved(p: Policy, input: Input) {
    input.ScanCompleted? && p.scanning && Match(input.sightings, p.target).Some?
    && (Match(input.sightings, p.target).value.address != p.lastAddress || p.waived)
  }

  /** The host answers at its old address, yet the session has been silent past
      the threshold. */
  predicate DarkSession(p: Policy, input: Input, now: nat) {
    && p.silent.Some? && p.silent.value + p.cfg.redialAfter <= now && !p.waived
    && (p.remembered.Some?
        || (input.ScanCompleted? && p.scanning && Match(input.sightings, p.target).Some?
            && Match(input.sightings, p.target).value.address == p.lastAddress))
  }

  lemma SilenceStands(p: Policy, now: nat)
    requires Inv(p, now) && p.alive
    ensures !Apply(p, WentSilent, now).0.alive ==> DarkSession(p, WentSilent, now)
  {
    var q := if p.silent.None? then p.(silent := Some(now)) else p;
    TickTearsDownIff(q, now);
  }

  lemma PathChangeStands(p: Policy, now: nat)
    requires Inv(p, now) && p.alive
    ensures OnPathChanged(p, now).0.alive
  {
    if p.silent.Some? {
      var q := p.(waived := true, graceUntil := None);
      BeginKeeps(q, now);
      TickTearsDownIff(BeginScanningIfNeeded(q).0, now);
    }
  }

  lemma RescheduleStands(p: Policy, now: nat)
    requires p.cfg.Valid() && Committed(p) && Timed(p, now) && p.alive
    ensures !Tick(ScheduleNextScan(p, now), now).0.alive <==> RememberedDue(p, now)
  {
    TickTearsDownIff(ScheduleNextScan(p, now), now);
  }

  lemma ScanStands(p: Policy, sightings: seq<Sighting>, now: nat)
    requires Inv(p, now) && p.alive
    ensures var input := ScanCompleted(sightings);
      !OnScanCompleted(p, sightings, now).0.alive <==>
        (HostMoved(p, input) || (p.scanning && DarkSession(p, input, now)))
  {
    var q := p.(scanInFlight := false);
    var found := Match(sightings, p.target);
    if q.scanning {
      if found.None? {
        RescheduleStands(q, now);
      } else if !DialWorthy(q, found.value) {
        RescheduleStands(q.(remembered := found), now);
      } else {
        var _ := DialSightingKeeps(q, found.value, now);
      }
    }
  }

  /** Nothing but evidence ends a standing session: short of the driver declaring
      it lost, a step gives it up only when the host was seen elsewhere (or our own
      address moved), or it stayed silent past the threshold while the host
      answered at its old address. */
  lemma StandingSessionIsSpared(p: Policy, input: Input, now: nat)
    requires Inv(p, now) && p.alive
    requires !input.Connect? && !input.SessionClosed? && !input.ManualReconnect?
    ensures !Apply(p, input, now).0.alive ==> HostMoved(p, input) || DarkSession(p, input, now)
  {
    match input
    case WentSilent => SilenceStands(p, now);
    case PathChanged => PathChangeStands(p, now);
    case ScanCompleted(sightings) => ScanStands(p, sightings, now);
    case Ticked => TickTearsDownIff(p, now);
    case _ =>
  }

  // ----- After the budget ---------------------------------------------------

  /** Past the budget nothing is dialed or scanned, exactly until the driver
      reports a session, a closure, or a human's reconnect. */
  lemma BuriedStaysQuietIff(p: Policy, input: Input, now: nat)
    requires Inv(p, now) && Buried(p) && !input.Connect?
    ensures Apply(p, input, now).1 == [] && Buried(Apply(p, input, now).0)
      <==> !input.SessionEstablished? && !input.SessionClosed? && !input.ManualReconnect?
  {
    BuriedTick(p, now);
  }

  lemma ExpiredByDial(cfg: Config)
    requires cfg.Valid() && cfg.budget == 45_000_000
    ensures var p := Apply(Connected(cfg, "host", "10.0.0.1", 7, 0), DialFailed, 45_000_000).0;
      Buried(p) && !p.scanInFlight && p.target == Lowered("host") && p.lastAddress == "10.0.0.1"
  {}

  /** Any buried policy with no scan out does the same for a matching sighting. */
  lemma BuriedReconnects(p: Policy, s: Sighting, now: nat)
    requires Buried(p) && !p.scanInFlight && Lowered(s.publicKeyHash) == p.target
    ensures var q := Apply(p, ManualReconnect, now);
      && q.1 == [BeginScan]
      && Apply(q.0, ScanCompleted([s]), now + 1).1 == [Dial(s.address, s.port, true)]
  {
    var q := Apply(p, ManualReconnect, now);
    assert q.1 == [BeginScan];
    assert Match([s], p.target) == Some(s);
  }

  /** A first connect whose dial came back past the budget: the policy says
      expired and is buried. Reconnecting by hand scans again, and the sighting
      that answers is dialed. */
  lemma BuriedDialsAgain()
    ensures var p := Run(Connected(DefaultConfig(), "host", "10.0.0.1", 7, 0), [Event(DialFailed, 45_000_000)]);
      var q := Apply(p, ManualReconnect, 45_000_001);
      && Buried(p) && q.1 == [BeginScan]
      && Apply(q.0, ScanCompleted([Sighting("HOST", "10.0.0.2", 7)]), 45_000_002).1 == [Dial("10.0.0.2", 7, true)]
  {
    var cfg := DefaultConfig();
    var start := Connected(cfg, "host", "10.0.0.1", 7, 0);
    var failed := [Event(DialFailed, 45_000_000)];
    assert failed[1..] == [];
    ExpiredByDial(cfg);
    var p := Apply(start, DialFailed, 45_000_000).0;
    assert Run(start, failed) == p;
    assert Lowered("HOST") == Lowered("host");
    BuriedReconnects(p, Sighting("HOST", "10.0.0.2", 7), 45_000_001);
  }
}
