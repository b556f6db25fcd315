/** The roaming policy in its own mutable form: each method updates the fields in
    the order the beat does and is tied to the step the theorems are about. */
module RoamingDialer {
  import opened Wrappers
  import opened RoamingPolicy

  class RoamingDialer {
    const config: Config
    const targetPublicKeyHash: string
    var lastKnownAddress: string
    var lastKnownPort: nat
    var sessionAlive: bool
    var establishDeadline: Option<nat>
    var expired: bool
    var silentSince: Option<nat>
    var pathChangeDeadline: Option<nat>
    var sameAddressRedialWaived: bool
    var scanning: bool
    var scanInFlight: bool
    var nextScanAt: Option<nat>
    var scanInterval: nat
    var dialInFlight: bool
    var dialInFlightTarget: Option<string>
    var sightingAwaitingDial: Option<Sighting>
    var nextDialAllowedAt: nat
    var dialRetry: nat
    var pendingSameAddressSighting: Option<Sighting>

    ghost function State(): Policy
      reads this
    {
      Policy(config, targetPublicKeyHash, lastKnownAddress, lastKnownPort, sessionAlive,
             establishDeadline, expired, silentSince, pathChangeDeadline, sameAddressRedialWaived,
             scanning, scanInFlight, nextScanAt, scanInterval, dialInFlight, dialInFlightTarget,
             sightingAwaitingDial, nextDialAllowedAt, dialRetry, pendingSameAddressSighting)
    }

    constructor (cfg: Config, target: string, address: string, port: nat)
      ensures State() == Fresh(cfg, target, address, port)
    {
      config, targetPublicKeyHash, lastKnownAddress, lastKnownPort := cfg, Lowered(target), address, port;
      sessionAlive, establishDeadline, expired, silentSince := true, None, false, None;
      pathChangeDeadline, sameAddressRedialWaived := None, false;
      scanning, scanInFlight, nextScanAt, scanInterval := false, false, None, cfg.scanFloor;
      dialInFlight, dialInFlightTarget, sightingAwaitingDial := false, None, None;
      nextDialAllowedAt, dialRetry, pendingSameAddressSighting := 0, cfg.dialFloor, None;
    }

    // ----- Interior ---------------------------------------------------------

    method GiveUp() returns (actions: seq<Action>)
      modifies this
      ensures (State(), actions) == Expire(old(State()))
    {
      establishDeadline, expired, scanning := None, true, false;
      nextScanAt, sightingAwaitingDial := None, None;
      actions := [Expired];
    }

    method BeginScanning() returns (actions: seq<Action>)
      modifies this
      ensures (State(), actions) == BeginScanningIfNeeded(old(State()))
    {
      if scanning { return []; }
      scanning, scanInterval := true, config.scanFloor;
      if scanInFlight { return []; }
      nextScanAt, scanInFlight := None, true;
      actions := [BeginScan];
    }

    method ScheduleScan(now: nat)
      modifies this
      ensures State() == ScheduleNextScan(old(State()), now)
    {
      nextScanAt := Some(now + scanInterval);
      scanInterval := Doubled(scanInterval, config.scanCeiling);
    }

    method DialTarget(address: string, port: nat, discovered: bool) returns (actions: seq<Action>)
      modifies this
      ensures (State(), actions) == DialNow(old(State()), address, port, discovered)
    {
      if dialInFlight { return []; }
      sessionAlive, pendingSameAddressSighting := false, None;
      dialInFlight, dialInFlightTarget := true, Some(address);
      actions := [Dial(address, port, discovered)];
    }

    method DialSighted(s: Sighting, now: nat) returns (actions: seq<Action>)
      modifies this
      ensures (State(), actions) == DialSighting(old(State()), s, now)
    {
      if s.address != lastKnownAddress {
        dialRetry, nextDialAllowedAt := config.dialFloor, now;
      }
      actions := DialTarget(s.address, s.port, true);
    }

    // ----- The beat ---------------------------------------------------------

    method WakeUp(now: nat) returns (actions: seq<Action>)
      modifies this
      ensures (State(), actions) == Wake(old(State()), now)
    {
      actions := [];
      if pathChangeDeadline.Some? && now >= pathChangeDeadline.value {
        pathChangeDeadline := None;
        if silentSince.Some? {
          actions := BeginScanning();
        } else {
          sameAddressRedialWaived := false;
        }
      }
      assert (State(), actions) == GraceStep(old(State()), now);
      if sessionAlive && !scanning && silentSince.Some? && now - silentSince.value >= config.scanAfter {
        var more := BeginScanning();
        actions := actions + more;
      } else {
        assert actions + [] == actions;
      }
    }

    method JudgeDials(now: nat) returns (actions: seq<Action>, dialed: bool)
      modifies this
      ensures (State(), actions) == Judge(old(State()), now) && dialed == (actions != [])
    {
      actions, dialed := [], false;
      if sessionAlive && pendingSameAddressSighting.Some? && silentSince.Some? && !sameAddressRedialWaived
         && now >= silentSince.value + config.redialAfter && !dialInFlight {
        actions := DialTarget(pendingSameAddressSighting.value.address,
                              pendingSameAddressSighting.value.port, true);
        dialed := true;
      }
      assert (State(), actions) == RememberedStep(old(State()), now);
      if !sessionAlive && !dialInFlight && !expired && now >= nextDialAllowedAt {
        var more := DialTarget(lastKnownAddress, lastKnownPort, false);
        actions, dialed := actions + more, true;
      } else {
        assert actions + [] == actions;
      }
    }

    method TakeTick(now: nat) returns (actions: seq<Action>)
      modifies this
      ensures (State(), actions) == Tick(old(State()), now)
    {
      if establishDeadline.Some? && now >= establishDeadline.value && !dialInFlight {
        actions := GiveUp();
        return;
      }
      var woken := WakeUp(now);
      var dials, dialed := JudgeDials(now);
      var scans := [];
      if scanning && !scanInFlight && !dialed && nextScanAt.Some? && now >= nextScanAt.value {
        nextScanAt, scanInFlight := None, true;
        scans := [BeginScan];
      }
      actions := woken + (dials + scans);
    }

    // ----- Inputs -----------------------------------------------------------

    method ArmBudget(now: nat)
      modifies this`sessionAlive, this`establishDeadline, this`nextDialAllowedAt
      ensures State() == Connecting(old(State()), now)
    {
      sessionAlive, establishDeadline, nextDialAllowedAt := false, Some(now + config.budget), now;
    }

    method FirstConnect(now: nat) returns (actions: seq<Action>)
      modifies this
      ensures (State(), actions) == Apply(old(State()), Connect, now)
    {
      ArmBudget(now);
      actions := TakeTick(now);
    }

    method ForgetSilence()
      modifies this`silentSince, this`pathChangeDeadline, this`sameAddressRedialWaived,
               this`pendingSameAddressSighting
      ensures State() == old(State()).(silent := None, graceUntil := None, waived := false, remembered := None)
    {
      silentSince, pathChangeDeadline := None, None;
      sameAddressRedialWaived, pendingSameAddressSighting := false, None;
    }

    method StopScanning()
      modifies this`scanning, this`nextScanAt, this`scanInterval
      ensures State() == old(State()).(scanning := false, nextScan := None, scanInterval := config.scanFloor)
    {
      scanning, nextScanAt, scanInterval := false, None, config.scanFloor;
    }

    method ForgetDials(now: nat)
      modifies this`dialInFlight, this`dialInFlightTarget, this`nextDialAllowedAt, this`dialRetry,
               this`sightingAwaitingDial
      ensures State() == old(State()).(dialInFlight := false, dialTarget := None, nextDial := now,
                                       dialRetry := config.dialFloor, held := None)
    {
      dialInFlight, dialInFlightTarget, sightingAwaitingDial := false, None, None;
      nextDialAllowedAt, dialRetry := now, config.dialFloor;
    }

    method OnSessionEstablished(address: string, port: nat, now: nat)
      modifies this
      ensures State() == Establish(old(State()), address, port, now)
    {
      ForgetSilence();
      StopScanning();
      ForgetDials(now);
      lastKnownAddress, lastKnownPort, sessionAlive := address, port, true;
      establishDeadline, scanInFlight := None, false;
    }

    method OnWentSilent(now: nat) returns (actions: seq<Action>)
      modifies this
      ensures (State(), actions) == Apply(old(State()), WentSilent, now)
    {
      if !sessionAlive { return []; }
      if silentSince.None? { silentSince := Some(now); }
      actions := TakeTick(now);
    }

    method OnEvidenceReturned()
      modifies this
      ensures State() == OnEvidence(old(State()))
    {
      if !sessionAlive { return; }
      ForgetSilence();
      if scanning { StopScanning(); }
    }

    method ScanAndTick(now: nat) returns (actions: seq<Action>)
      modifies this
      ensures (State(), actions) == ScanThenTick(old(State()), now)
    {
      actions := BeginScanning();
      var more := TakeTick(now);
      actions := actions + more;
    }

    method OnSessionClosed(now: nat) returns (actions: seq<Action>)
      modifies this
      ensures (State(), actions) == Apply(old(State()), SessionClosed, now)
    {
      sessionAlive, pendingSameAddressSighting := false, None;
      actions := ScanAndTick(now);
    }

    method PathDidChange(now: nat) returns (actions: seq<Action>)
      modifies this
      ensures (State(), actions) == OnPathChanged(old(State()), now)
    {
      if !sessionAlive { return []; }
      sameAddressRedialWaived := true;
      if silentSince.Some? {
        pathChangeDeadline := None;
        actions := ScanAndTick(now);
      } else {
        pathChangeDeadline := Some(now + config.grace);
        actions := [];
      }
    }

    method Reconnect(now: nat) returns (actions: seq<Action>)
      modifies this
      ensures (State(), actions) == OnManualReconnect(old(State()), now)
    {
      LetGo();
      ResetLadders(now);
      actions := ScanAndTick(now);
    }

    method LetGo()
      modifies this`sessionAlive, this`scanning, this`pendingSameAddressSighting
      ensures State() == old(State()).(alive := false, scanning := false, remembered := None)
    {
      sessionAlive, scanning, pendingSameAddressSighting := false, false, None;
    }

    method ResetLadders(now: nat)
      modifies this`scanInterval, this`dialRetry, this`nextDialAllowedAt
      ensures State() == old(State()).(scanInterval := config.scanFloor, dialRetry := config.dialFloor, nextDial := now)
    {
      scanInterval, dialRetry, nextDialAllowedAt := config.scanFloor, config.dialFloor, now;
    }

    /** One browse pass ended: the first sighting of the target decides. */
    method BrowseEnded(sightings: seq<Sighting>, now: nat) returns (actions: seq<Action>)
      modifies this
      ensures (State(), actions) == OnScanCompleted(old(State()), sightings, now)
    {
      scanInFlight := false;
      if !scanning { return []; }
      var found := FirstMatch(sightings, targetPublicKeyHash);
      ghost var q := State();
      if found.None? {
      } else if found.value.address != lastKnownAddress || !sessionAlive || sameAddressRedialWaived {
        if !dialInFlight {
          actions := DialSighted(found.value, now);
          return;
        }
        if Some(found.value.address) != dialInFlightTarget { sightingAwaitingDial := found; }
      } else {
        pendingSameAddressSighting := found;
      }
      assert State() == if found.None? then q
                        else if !DialWorthy(q, found.value) then q.(remembered := found)
                        else if Some(found.value.address) != q.dialTarget then q.(held := found) else q;
      ScheduleScan(now);
      actions := TakeTick(now);
    }

    method BackOffDial(now: nat)
      modifies this
      ensures State() == BackOff(old(State()), now)
    {
      nextDialAllowedAt := now + dialRetry;
      dialRetry := Doubled(dialRetry, config.dialCeiling);
      if scanning && !scanInFlight && nextScanAt.None? { nextScanAt := Some(now); }
    }

    method SettleDial()
      modifies this`dialInFlight, this`dialInFlightTarget
      ensures State() == old(State()).(dialInFlight := false, dialTarget := None)
    {
      dialInFlight, dialInFlightTarget := false, None;
    }

    method DialDidFail(now: nat) returns (actions: seq<Action>)
      modifies this
      ensures (State(), actions) == OnDialFailed(old(State()), now)
    {
      if !dialInFlight { return []; }
      SettleDial();
      if establishDeadline.Some? && now >= establishDeadline.value {
        actions := GiveUp();
      } else if sightingAwaitingDial.Some? {
        actions := DialHeld(now);
      } else {
        BackOffDial(now);
        actions := ScanAndTick(now);
      }
    }

    method DialHeld(now: nat) returns (actions: seq<Action>)
      requires sightingAwaitingDial.Some?
      modifies this
      ensures (State(), actions) == DialSighting(old(State()).(held := None), old(sightingAwaitingDial).value, now)
    {
      var held := sightingAwaitingDial.value;
      sightingAwaitingDial := None;
      actions := DialSighted(held, now);
    }
  }

  /** The first sighting that carries the target's identity. */
  method FirstMatch(sightings: seq<Sighting>, target: string) returns (found: Option<Sighting>)
    ensures found == Match(sightings, target)
    ensures found.None? ==> forall i :: 0 <= i < |sightings| ==> Lowered(sightings[i].publicKeyHash) != target
    ensures found.Some? ==> found.value in sightings && Lowered(found.value.publicKeyHash) == target
  {
    var i := 0;
    while i < |sightings|
      invariant 0 <= i <= |sightings|
      invariant Match(sightings, target) == Match(sightings[i..], target)
      invariant forall j :: 0 <= j < i ==> Lowered(sightings[j].publicKeyHash) != target
    {
      if Lowered(sightings[i].publicKeyHash) == target { return Some(sightings[i]); }
      assert sightings[i..][1..] == sightings[i + 1..];
      i := i + 1;
    }
    return None;
  }
}
