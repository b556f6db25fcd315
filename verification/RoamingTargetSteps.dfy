/** The steps behind where dials go: what one input leaves of the last-known place and
    of the sightings kept, and which of them its dials use. A probe goes to the last
    known place; any other dial to the sighting at hand, the one held for the dial
    that just failed, or the one remembered through a silence. */
module RoamingTargetSteps {
  import opened Wrappers
  import RoamingAnswers
  import opened RoamingPolicy

  datatype Place = Place(address: string, port: nat)

  function PlaceOf(p: Policy): Place {
    Place(p.lastAddress, p.lastPort)
  }

  /** The input is a scan that brought this sighting first of the identity. */
  predicate Brought(input: Input, target: string, s: Sighting) {
    input.ScanCompleted? && Match(input.sightings, target) == Some(s)
  }

  /** The sightings one input may use. */
  predicate Known(p: Policy, input: Input, s: Sighting) {
    p.held == Some(s) || p.remembered == Some(s) || Brought(input, p.target, s)
  }

  /** The answer leaves the place alone and probes it only. */
  ghost predicate Probes(p: Policy, r: Result) {
    && PlaceOf(r.0) == PlaceOf(p)
    && (forall a, n :: Dial(a, n, false) in r.1 ==> Place(a, n) == PlaceOf(p))
  }

  /** The answer dials and keeps only sightings among these. */
  ghost predicate Sights(p: Policy, input: Input, r: Result) {
    && r.0.target == p.target
    && (forall a, n :: Dial(a, n, true) in r.1 ==>
          exists s: Sighting :: Known(p, input, s) && s.address == a && s.port == n)
    && (r.0.held.Some? ==> Known(p, input, r.0.held.value))
    && (r.0.remembered.Some? ==> Known(p, input, r.0.remembered.value))
  }

  // ----- The beat -----------------------------------------------------------

  /** Everything about targets is as it was. */
  predicate SameTargets(p: Policy, q: Policy) {
    && PlaceOf(q) == PlaceOf(p) && q.target == p.target && q.held == p.held
    && q.remembered == p.remembered
  }

  lemma BeatKnows(p: Policy, now: nat) returns (r: Result)
    ensures r == (RoamingAnswers.Beaten(p, now), RoamingAnswers.Sent(p, now)) && Probes(p, r)
  {
    r := (RoamingAnswers.Beaten(p, now), RoamingAnswers.Sent(p, now));
  }

  lemma BeatKeeps(p: Policy, now: nat) returns (r: Result)
    ensures r == (RoamingAnswers.Beaten(p, now), RoamingAnswers.Sent(p, now)) && KeepsOnly(p, r)
  {
    r := (RoamingAnswers.Beaten(p, now), RoamingAnswers.Sent(p, now));
  }

  lemma TickKnows(p: Policy, now: nat) returns (r: Result)
    ensures r == Tick(p, now) && Probes(p, r)
  {
    r := BeatKnows(p, now);
    RoamingAnswers.TickAnswers(p, now);
  }

  lemma TickSights(p: Policy, now: nat) returns (r: Result)
    ensures r == Tick(p, now) && KeepsOnly(p, r)
  {
    r := BeatKeeps(p, now);
    RoamingAnswers.TickAnswers(p, now);
  }

  lemma ScanThenTickKnows(p: Policy, now: nat) returns (r: Result)
    ensures r == ScanThenTick(p, now) && Probes(p, r)
  {
    var a := BeginScanningIfNeeded(p);
    var b := TickKnows(a.0, now);
    r := Then(a, b);
  }

  lemma ScanThenTickSights(p: Policy, now: nat) returns (r: Result)
    ensures r == ScanThenTick(p, now) && KeepsOnly(p, r)
  {
    var a := BeginScanningIfNeeded(p);
    var b := TickSights(a.0, now);
    r := Then(a, b);
  }

  // ----- Inputs -------------------------------------------------------------

  function Resumed(p: Policy, found: Option<Sighting>, now: nat): Policy {
    var q := p.(scanInFlight := false);
    ScheduleNextScan(
      if found.None? then q
      else if !DialWorthy(q, found.value) then q.(remembered := found)
      else if Some(found.value.address) != q.dialTarget then q.(held := found) else q, now)
  }

  lemma ScanKnows(p: Policy, sightings: seq<Sighting>, now: nat) returns (r: Result)
    ensures r == OnScanCompleted(p, sightings, now) && Probes(p, r)
  {
    var found := Match(sightings, p.target);
    if p.scanning && (found.None? || !DialWorthy(p, found.value) || p.dialInFlight) {
      r := TickKnows(Resumed(p, found, now), now);
    } else {
      r := OnScanCompleted(p, sightings, now);
    }
  }

  /** An answer that keeps no more and dials only what was remembered. */
  ghost predicate KeepsOnly(p: Policy, r: Result) {
    && r.0.target == p.target
    && (r.0.held.Some? ==> r.0.held == p.held)
    && (r.0.remembered.Some? ==> r.0.remembered == p.remembered)
    && (forall a, n :: Dial(a, n, true) in r.1 ==>
          p.remembered.Some? && p.remembered.value.address == a && p.remembered.value.port == n)
  }

  lemma KeptIsKnown(p: Policy, q: Policy, input: Input, r: Result)
    requires KeepsOnly(q, r) && q.target == p.target
    requires q.held.Some? ==> Known(p, input, q.held.value)
    requires q.remembered.Some? ==> Known(p, input, q.remembered.value)
    ensures Sights(p, input, r)
  {
    forall a, n | Dial(a, n, true) in r.1
      ensures exists s: Sighting :: Known(p, input, s) && s.address == a && s.port == n
    {
      assert Known(p, input, q.remembered.value);
    }
  }

  lemma SightingDialed(p: Policy, input: Input, s: Sighting, now: nat) returns (r: Result)
    requires Known(p, input, s)
    ensures r == DialSighting(p, s, now) && Sights(p, input, r)
  {
    r := DialSighting(p, s, now);
  }

  lemma ScanSights(p: Policy, sightings: seq<Sighting>, now: nat) returns (r: Result)
    ensures r == OnScanCompleted(p, sightings, now) && Sights(p, ScanCompleted(sightings), r)
  {
    var found, input := Match(sightings, p.target), ScanCompleted(sightings);
    if p.scanning && (found.None? || !DialWorthy(p, found.value) || p.dialInFlight) {
      var q := Resumed(p, found, now);
      r := TickSights(q, now);
      KeptIsKnown(p, q, input, r);
    } else if p.scanning {
      r := SightingDialed(p.(scanInFlight := false), input, found.value, now);
    } else {
      r := OnScanCompleted(p, sightings, now);
    }
  }

  lemma FailureKnows(p: Policy, now: nat) returns (r: Result)
    ensures r == OnDialFailed(p, now) && Probes(p, r)
  {
    var q := p.(dialInFlight := false, dialTarget := None);
    if !p.dialInFlight {
      r := (p, []);
    } else if q.establish.Some? && now >= q.establish.value {
      r := Expire(q);
    } else if q.held.Some? {
      r := DialSighting(q.(held := None), q.held.value, now);
    } else {
      r := ScanThenTickKnows(BackOff(q, now), now);
    }
  }

  lemma FailureSights(p: Policy, now: nat) returns (r: Result)
    ensures r == OnDialFailed(p, now) && Sights(p, DialFailed, r)
  {
    var q := p.(dialInFlight := false, dialTarget := None);
    if !p.dialInFlight {
      r := (p, []);
    } else if q.establish.Some? && now >= q.establish.value {
      r := Expire(q);
    } else if q.held.Some? {
      r := HeldDialed(q, now);
    } else {
      r := ScanThenTickSights(BackOff(q, now), now);
      KeptIsKnown(p, BackOff(q, now), DialFailed, r);
    }
  }

  lemma HeldDialed(p: Policy, now: nat) returns (r: Result)
    requires p.held.Some?
    ensures r == DialSighting(p.(held := None), p.held.value, now) && Sights(p, DialFailed, r)
  {
    r := DialSighting(p.(held := None), p.held.value, now);
    assert Known(p, DialFailed, p.held.value);
  }

  /** The place after an input: where it established a session, or as before; and
      every probe it makes goes to the place before it. */
  lemma ApplyKnows(p: Policy, input: Input, now: nat) returns (r: Result)
    ensures r == Apply(p, input, now)
    ensures PlaceOf(r.0) == (if input.SessionEstablished? then Place(input.address, input.port) else PlaceOf(p))
    ensures forall a, n :: Dial(a, n, false) in r.1 ==> Place(a, n) == PlaceOf(p)
  {
    match input
    case Connect => r := TickKnows(Connecting(p, now), now);
    case WentSilent =>
      r := TickKnows(if p.silent.None? then p.(silent := Some(now)) else p, now);
      r := Apply(p, input, now);
    case SessionClosed => r := ScanThenTickKnows(p.(alive := false, remembered := None), now);
    case PathChanged =>
      r := ScanThenTickKnows(p.(waived := true, graceUntil := None), now);
      r := OnPathChanged(p, now);
    case ManualReconnect =>
      r := ScanThenTickKnows(p.(alive := false, scanning := false, remembered := None,
        scanInterval := p.cfg.scanFloor, dialRetry := p.cfg.dialFloor, nextDial := now), now);
    case ScanCompleted(sightings) => r := ScanKnows(p, sightings, now);
    case DialFailed => r := FailureKnows(p, now);
    case Ticked => r := TickKnows(p, now);
    case _ => r := Apply(p, input, now);
  }

  lemma SilenceSights(p: Policy, now: nat) returns (r: Result)
    ensures r == Apply(p, WentSilent, now) && Sights(p, WentSilent, r)
  {
    if p.alive {
      var q := if p.silent.None? then p.(silent := Some(now)) else p;
      r := TickSights(q, now);
      KeptIsKnown(p, q, WentSilent, r);
    } else {
      r := (p, []);
    }
  }

  lemma PathChangeSights(p: Policy, now: nat) returns (r: Result)
    ensures r == OnPathChanged(p, now) && Sights(p, PathChanged, r)
  {
    if p.alive && p.silent.Some? {
      var q := p.(waived := true, graceUntil := None);
      r := ScanThenTickSights(q, now);
      KeptIsKnown(p, q, PathChanged, r);
    } else {
      r := OnPathChanged(p, now);
    }
  }

  /** The inputs that give the session up and look again. */
  lemma LossSights(p: Policy, q: Policy, input: Input, now: nat) returns (r: Result)
    requires q.target == p.target && q.held == p.held && q.remembered.None?
    ensures r == ScanThenTick(q, now) && Sights(p, input, r)
  {
    r := ScanThenTickSights(q, now);
    KeptIsKnown(p, q, input, r);
  }

  lemma BeatSights(p: Policy, q: Policy, input: Input, now: nat) returns (r: Result)
    requires SameTargets(p, q)
    ensures r == Tick(q, now) && Sights(p, input, r)
  {
    r := TickSights(q, now);
    KeptIsKnown(p, q, input, r);
  }

  lemma ApplySights(p: Policy, input: Input, now: nat) returns (r: Result)
    ensures r == Apply(p, input, now) && Sights(p, input, r)
  {
    match input
    case Connect => r := BeatSights(p, Connecting(p, now), input, now);
    case SessionEstablished(_, _) => r := Apply(p, input, now);
    case EvidenceReturned => r := Apply(p, input, now);
    case WentSilent => r := SilenceSights(p, now);
    case SessionClosed => r := LossSights(p, p.(alive := false, remembered := None), input, now);
    case PathChanged => r := PathChangeSights(p, now);
    case ManualReconnect =>
      r := LossSights(p, p.(alive := false, scanning := false, remembered := None,
        scanInterval := p.cfg.scanFloor, dialRetry := p.cfg.dialFloor, nextDial := now), input, now);
    case ScanCompleted(sightings) => r := ScanSights(p, sightings, now);
    case DialFailed => r := FailureSights(p, now);
    case Ticked => r := BeatSights(p, p, input, now);
  }
}
