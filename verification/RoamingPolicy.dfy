/** The client's dial policy: when to scan, when to dial, when to give up. Times
    are microseconds of one monotonic clock. */
module RoamingPolicy {
  import opened Wrappers

  datatype Sighting = Sighting(publicKeyHash: string, address: string, port: nat)

  datatype Action =
    | BeginScan
    | Dial(address: string, port: nat, discovered: bool)
    | Expired

  datatype Config = Config(
    scanAfter: nat, redialAfter: nat, grace: nat,
    scanFloor: nat, scanCeiling: nat, dialFloor: nat, dialCeiling: nat, budget: nat)
  {
    /** What every configuration means: floors below ceilings, real waits. */
    predicate Valid() {
      0 < scanFloor <= scanCeiling && 0 < dialFloor <= dialCeiling
      && 0 < scanAfter && 0 < grace && 0 < budget
    }
  }

  function DefaultConfig(): (cfg: Config)
    ensures cfg.Valid()
  {
    Config(3_000_000, 8_000_000, 3_000_000, 1_000_000, 15_000_000, 2_000_000, 30_000_000, 45_000_000)
  }

  datatype Policy = Policy(
    cfg: Config, target: string,
    lastAddress: string, lastPort: nat,
    alive: bool, establish: Option<nat>, expired: bool,
    silent: Option<nat>, graceUntil: Option<nat>, waived: bool,
    scanning: bool, scanInFlight: bool, nextScan: Option<nat>, scanInterval: nat,
    dialInFlight: bool, dialTarget: Option<string>, held: Option<Sighting>,
    nextDial: nat, dialRetry: nat, remembered: Option<Sighting>)

  type Result = (Policy, seq<Action>)

  /** Identity hashes are compared without regard to (ASCII) case. */
  function Lowered(s: string): string {
    seq(|s|, i requires 0 <= i < |s| => if 'A' <= s[i] <= 'Z' then s[i] - 'A' + 'a' else s[i])
  }

  function Fresh(cfg: Config, target: string, address: string, port: nat): Policy {
    Policy(cfg, Lowered(target), address, port, true, None, false, None, None, false,
           false, false, None, cfg.scanFloor, false, None, None, 0, cfg.dialFloor, None)
  }

  // ----- Reads --------------------------------------------------------------

  /** Blind probes run only once the session is gone. */
  predicate ProbePending(p: Policy) {
    !p.alive && !p.dialInFlight && !p.expired
  }

  function RememberedReadyAt(p: Policy): Option<nat> {
    if p.alive && p.remembered.Some? && p.silent.Some? && !p.waived
    then Some(p.silent.value + p.cfg.redialAfter) else None
  }

  function Sooner(a: Option<nat>, b: Option<nat>): Option<nat> {
    if a.None? then b
    else if b.None? then a
    else if a.value < b.value then a else b
  }

  function SilenceDeadline(p: Policy): Option<nat> {
    if p.alive && !p.scanning && p.silent.Some? then Some(p.silent.value + p.cfg.scanAfter) else None
  }

  function ScanDeadline(p: Policy): Option<nat> {
    if p.scanning && !p.scanInFlight then p.nextScan else None
  }

  function ProbeDeadline(p: Policy): Option<nat> {
    if ProbePending(p) then Some(p.nextDial) else None
  }

  function BudgetDeadline(p: Policy): Option<nat> {
    if p.dialInFlight then None else p.establish
  }

  /** When the driver must tick next. */
  function NextDeadline(p: Policy): Option<nat> {
    Sooner(SilenceDeadline(p), Sooner(p.graceUntil, Sooner(ScanDeadline(p),
      Sooner(ProbeDeadline(p), Sooner(RememberedReadyAt(p), BudgetDeadline(p))))))
  }

  // ----- Interior -----------------------------------------------------------

  function Expire(p: Policy): Result {
    (p.(establish := None, expired := true, scanning := false, nextScan := None, held := None), [Expired])
  }

  function BeginScanningIfNeeded(p: Policy): Result {
    if p.scanning then (p, [])
    else
      var q := p.(scanning := true, scanInterval := p.cfg.scanFloor);
      if p.scanInFlight then (q, []) else (q.(nextScan := None, scanInFlight := true), [BeginScan])
  }

  function Doubled(interval: nat, ceiling: nat): nat {
    if interval * 2 < ceiling then interval * 2 else ceiling
  }

  function ScheduleNextScan(p: Policy, now: nat): Policy {
    p.(nextScan := Some(now + p.scanInterval), scanInterval := Doubled(p.scanInterval, p.cfg.scanCeiling))
  }

  function DialNow(p: Policy, address: string, port: nat, discovered: bool): Result {
    if p.dialInFlight then (p, [])
    else
      (p.(alive := false, remembered := None, dialInFlight := true, dialTarget := Some(address)),
       [Dial(address, port, discovered)])
  }

  function DialSighting(p: Policy, s: Sighting, now: nat): Result {
    var q := if s.address != p.lastAddress then p.(dialRetry := p.cfg.dialFloor, nextDial := now) else p;
    DialNow(q, s.address, s.port, true)
  }

  // ----- The beat -----------------------------------------------------------

  predicate BudgetOut(p: Policy, now: nat) {
    p.establish.Some? && now >= p.establish.value && !p.dialInFlight
  }

  function GraceStep(p: Policy, now: nat): Result {
    if p.graceUntil.Some? && now >= p.graceUntil.value then
      var q := p.(graceUntil := None);
      if q.silent.Some? then BeginScanningIfNeeded(q) else (q.(waived := false), [])
    else (p, [])
  }

  function SilenceStep(p: Policy, now: nat): Result {
    if p.alive && !p.scanning && p.silent.Some? && now - p.silent.value >= p.cfg.scanAfter
    then BeginScanningIfNeeded(p) else (p, [])
  }

  predicate RememberedDue(p: Policy, now: nat) {
    RememberedReadyAt(p).Some? && now >= RememberedReadyAt(p).value && !p.dialInFlight
  }

  function RememberedStep(p: Policy, now: nat): Result {
    if RememberedDue(p, now) then DialNow(p, p.remembered.value.address, p.remembered.value.port, true)
    else (p, [])
  }

  predicate ProbeDue(p: Policy, now: nat) {
    ProbePending(p) && now >= p.nextDial
  }

  function ProbeStep(p: Policy, now: nat): Result {
    if ProbeDue(p, now) then DialNow(p, p.lastAddress, p.lastPort, false) else (p, [])
  }

  predicate ScanDue(p: Policy, now: nat) {
    p.scanning && !p.scanInFlight && p.nextScan.Some? && now >= p.nextScan.value
  }

  function ScanStep(p: Policy, now: nat, dialed: bool): Result {
    if !dialed && ScanDue(p, now) then (p.(nextScan := None, scanInFlight := true), [BeginScan])
    else (p, [])
  }

  function Then(a: Result, b: Result): Result {
    (b.0, a.1 + b.1)
  }

  /** Grace and silence: what may begin scanning. */
  function Wake(p: Policy, now: nat): Result {
    var a := GraceStep(p, now);
    Then(a, SilenceStep(a.0, now))
  }

  /** The dial-worthy verdicts, judged before scheduled scans. */
  function Judge(p: Policy, now: nat): Result {
    var a := RememberedStep(p, now);
    Then(a, ProbeStep(a.0, now))
  }

  function Tick(p: Policy, now: nat): Result {
    if BudgetOut(p, now) then Expire(p)
    else
      var a := Wake(p, now);
      var b := Judge(a.0, now);
      Then(a, Then(b, ScanStep(b.0, now, b.1 != [])))
  }

  // ----- Inputs -------------------------------------------------------------

  datatype Input =
    | Connect
    | SessionEstablished(address: string, port: nat)
    | WentSilent
    | EvidenceReturned
    | SessionClosed
    | PathChanged
    | ManualReconnect
    | ScanCompleted(sightings: seq<Sighting>)
    | DialFailed
    | Ticked

  function Match(sightings: seq<Sighting>, target: string): Option<Sighting> {
    if sightings == [] then None
    else if Lowered(sightings[0].publicKeyHash) == target then Some(sightings[0])
    else Match(sightings[1..], target)
  }

  function Connecting(p: Policy, now: nat): Policy {
    p.(alive := false, establish := Some(now + p.cfg.budget), nextDial := now)
  }

  function Establish(p: Policy, address: string, port: nat, now: nat): Policy {
    p.(lastAddress := address, lastPort := port, alive := true, establish := None,
       silent := None, graceUntil := None, waived := false,
       scanning := false, scanInFlight := false, nextScan := None, scanInterval := p.cfg.scanFloor,
       dialInFlight := false, dialTarget := None, nextDial := now, dialRetry := p.cfg.dialFloor,
       remembered := None, held := None)
  }

  function OnEvidence(p: Policy): Policy {
    if !p.alive then p
    else
      var q := p.(silent := None, graceUntil := None, waived := false, remembered := None);
      if q.scanning then q.(scanning := false, nextScan := None, scanInterval := p.cfg.scanFloor) else q
  }

  function ScanThenTick(p: Policy, now: nat): Result {
    var a := BeginScanningIfNeeded(p);
    Then(a, Tick(a.0, now))
  }

  function OnPathChanged(p: Policy, now: nat): Result {
    if !p.alive then (p, [])
    else
      var q := p.(waived := true);
      if q.silent.Some? then ScanThenTick(q.(graceUntil := None), now)
      else (q.(graceUntil := Some(now + p.cfg.grace)), [])
  }

  function OnManualReconnect(p: Policy, now: nat): Result {
    ScanThenTick(p.(alive := false, scanning := false, remembered := None,
                    scanInterval := p.cfg.scanFloor, dialRetry := p.cfg.dialFloor, nextDial := now), now)
  }

  /** A match worth a teardown: the host moved, or nothing stands to lose. */
  predicate DialWorthy(p: Policy, s: Sighting) {
    s.address != p.lastAddress || !p.alive || p.waived
  }

  function OnScanCompleted(p: Policy, sightings: seq<Sighting>, now: nat): Result {
    var q := p.(scanInFlight := false);
    var found := Match(sightings, p.target);
    if !q.scanning then (q, [])
    else if found.None? then Tick(ScheduleNextScan(q, now), now)
    else if !DialWorthy(q, found.value) then
      Tick(ScheduleNextScan(q.(remembered := found), now), now)
    else if !q.dialInFlight then DialSighting(q, found.value, now)
    else
      var r := if Some(found.value.address) != q.dialTarget then q.(held := found) else q;
      Tick(ScheduleNextScan(r, now), now)
  }

  function BackOff(p: Policy, now: nat): Policy {
    p.(nextDial := now + p.dialRetry, dialRetry := Doubled(p.dialRetry, p.cfg.dialCeiling),
       nextScan := if p.scanning && !p.scanInFlight && p.nextScan.None? then Some(now) else p.nextScan)
  }

  function OnDialFailed(p: Policy, now: nat): Result {
    if !p.dialInFlight then (p, [])
    else
      var q := p.(dialInFlight := false, dialTarget := None);
      if q.establish.Some? && now >= q.establish.value then Expire(q)
      else if q.held.Some? then DialSighting(q.(held := None), q.held.value, now)
      else ScanThenTick(BackOff(q, now), now)
  }

  function Apply(p: Policy, input: Input, now: nat): Result {
    match input
    case Connect => Tick(Connecting(p, now), now)
    case SessionEstablished(address, port) => (Establish(p, address, port, now), [])
    case WentSilent =>
      if !p.alive then (p, [])
      else Tick(if p.silent.None? then p.(silent := Some(now)) else p, now)
    case EvidenceReturned => (OnEvidence(p), [])
    case SessionClosed => ScanThenTick(p.(alive := false, remembered := None), now)
    case PathChanged => OnPathChanged(p, now)
    case ManualReconnect => OnManualReconnect(p, now)
    case ScanCompleted(sightings) => OnScanCompleted(p, sightings, now)
    case DialFailed => OnDialFailed(p, now)
    case Ticked => Tick(p, now)
  }
}
