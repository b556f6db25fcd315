/** What the policy does on a beat and on each input, whatever its state, in its own
    fields: a beat's six steps come to one answer, and every other input sets what it
    sets and then beats. */
module RoamingAnswers {
  import opened Wrappers
  import opened RoamingPolicy

  // ----- The beat -----------------------------------------------------------

  predicate Passed(at: Option<nat>, now: nat) {
    at.Some? && now >= at.value
  }

  /** Silence began to matter: its clock ran out on a standing session, or the grace
      after a path change did; and no scanning is under way. */
  predicate Stirs(p: Policy, now: nat) {
    && !p.scanning && p.silent.Some?
    && (Passed(p.graceUntil, now) || (p.alive && now - p.silent.value >= p.cfg.scanAfter))
  }

  /** A remembered sighting of the host where it was is worth a teardown by now. */
  predicate Recalls(p: Policy, now: nat) {
    && p.alive && p.remembered.Some? && p.silent.Some? && !p.waived && !p.dialInFlight
    && now >= p.silent.value + p.cfg.redialAfter
  }

  /** The session is gone and a blind probe is due. */
  predicate Probes(p: Policy, now: nat) {
    !p.alive && !p.dialInFlight && !p.expired && now >= p.nextDial
  }

  /** A scheduled scan is due, and no dial goes out instead. */
  predicate Rescans(p: Policy, now: nat) {
    && p.scanning && !p.scanInFlight && Passed(p.nextScan, now)
    && !Recalls(p, now) && !Probes(p, now)
  }

  /** The establishing budget ran out with no dial in flight. */
  predicate RunsOut(p: Policy, now: nat) {
    Passed(p.establish, now) && !p.dialInFlight
  }

  /** What a beat sends: a first scan, a dial, a scheduled scan; or the end. */
  function Sent(p: Policy, now: nat): seq<Action> {
    if RunsOut(p, now) then [Expired]
    else
      (if Stirs(p, now) && !p.scanInFlight then [BeginScan] else [])
      + (if Recalls(p, now) then [Dial(p.remembered.value.address, p.remembered.value.port, true)]
         else if Probes(p, now) then [Dial(p.lastAddress, p.lastPort, false)]
         else [])
      + if Rescans(p, now) then [BeginScan] else []
  }

  /** What a beat leaves. */
  function Beaten(p: Policy, now: nat): Policy {
    if RunsOut(p, now) then
      p.(establish := None, expired := true, scanning := false, nextScan := None, held := None)
    else
      var stirs, dials := Stirs(p, now), Recalls(p, now) || Probes(p, now);
      p.(graceUntil := if Passed(p.graceUntil, now) then None else p.graceUntil,
         waived := p.waived && !(Passed(p.graceUntil, now) && p.silent.None?),
         scanning := p.scanning || stirs,
         scanInterval := if stirs then p.cfg.scanFloor else p.scanInterval,
         scanInFlight := p.scanInFlight || stirs || Rescans(p, now),
         nextScan := if (stirs && !p.scanInFlight) || Rescans(p, now) then None else p.nextScan,
         alive := p.alive && !dials, dialInFlight := p.dialInFlight || dials,
         remembered := if dials then None else p.remembered,
         dialTarget := if Recalls(p, now) then Some(p.remembered.value.address)
                       else if Probes(p, now) then Some(p.lastAddress) else p.dialTarget)
  }

  lemma OneOf(a: seq<Action>, b: seq<Action>)
    ensures a == [] ==> a + b == b
    ensures b == [] ==> a + b == a
  {}

  lemma WakeIs(p: Policy, now: nat) returns (q: Policy)
    ensures Wake(p, now) == (q, if Stirs(p, now) && !p.scanInFlight then [BeginScan] else [])
    ensures var stirs := Stirs(p, now);
            q == p.(graceUntil := if Passed(p.graceUntil, now) then None else p.graceUntil,
                    waived := p.waived && !(Passed(p.graceUntil, now) && p.silent.None?),
                    scanning := p.scanning || stirs,
                    scanInterval := if stirs then p.cfg.scanFloor else p.scanInterval,
                    scanInFlight := p.scanInFlight || stirs,
                    nextScan := if stirs && !p.scanInFlight then None else p.nextScan)
  {
    q := Wake(p, now).0;
    var a := GraceStep(p, now);
    OneOf(a.1, SilenceStep(a.0, now).1);
  }

  lemma JudgeIs(p: Policy, now: nat) returns (q: Policy)
    ensures Judge(p, now)
            == (q, if Recalls(p, now) then [Dial(p.remembered.value.address, p.remembered.value.port, true)]
                   else if Probes(p, now) then [Dial(p.lastAddress, p.lastPort, false)]
                   else [])
    ensures var dials := Recalls(p, now) || Probes(p, now);
            q == p.(alive := p.alive && !dials, dialInFlight := p.dialInFlight || dials,
                    remembered := if dials then None else p.remembered,
                    dialTarget := if Recalls(p, now) then Some(p.remembered.value.address)
                                  else if Probes(p, now) then Some(p.lastAddress) else p.dialTarget)
  {
    q := Judge(p, now).0;
    var a := RememberedStep(p, now);
    OneOf(a.1, ProbeStep(a.0, now).1);
  }

  /** The three parts of a beat that does not end, put together. */
  lemma BeatIs(p: Policy, a: Policy, b: Policy, now: nat) returns (scans: seq<Action>)
    requires !RunsOut(p, now) && a == Wake(p, now).0 && b == Judge(a, now).0
    ensures Tick(p, now) == (ScanStep(b, now, Judge(a, now).1 != []).0, Wake(p, now).1 + Judge(a, now).1 + scans)
    ensures scans == ScanStep(b, now, Judge(a, now).1 != []).1
  {
    scans := ScanStep(b, now, Judge(a, now).1 != []).1;
    assert Wake(p, now).1 + (Judge(a, now).1 + scans) == Wake(p, now).1 + Judge(a, now).1 + scans;
  }

  lemma WokenJudges(p: Policy, now: nat) returns (a: Policy, b: Policy)
    ensures a == Wake(p, now).0 && b == Judge(a, now).0
    ensures (Recalls(a, now) <==> Recalls(p, now)) && (Probes(a, now) <==> Probes(p, now))
    ensures ScanDue(b, now) && Judge(a, now).1 == [] <==> Rescans(p, now)
  {
    a := WakeIs(p, now);
    b := JudgeIs(a, now);
  }

  /** A beat, whatever the state: it ends, or stirs, dials and scans as due, at most one
      dial and one scan. */
  lemma TickAnswers(p: Policy, now: nat)
    ensures Apply(p, Ticked, now) == (Beaten(p, now), Sent(p, now))
  {
    if !RunsOut(p, now) {
      var a, b := WokenJudges(p, now);
      var woken := WakeIs(p, now);
      var judged := JudgeIs(a, now);
      var scans := BeatIs(p, a, b, now);
    }
  }

  // ----- The other inputs ---------------------------------------------------

  /** What follows a fresh hunt: a scan at the floor interval, if none is under way,
      and then a beat. */
  function Hunted(p: Policy, now: nat): Result {
    if p.scanning then Apply(p, Ticked, now)
    else
      var q := p.(scanning := true, scanInterval := p.cfg.scanFloor, scanInFlight := true,
                  nextScan := if p.scanInFlight then p.nextScan else None);
      var r := Apply(q, Ticked, now);
      (r.0, (if p.scanInFlight then [] else [BeginScan]) + r.1)
  }

  lemma HuntIs(p: Policy, now: nat)
    ensures ScanThenTick(p, now) == Hunted(p, now)
  {
    var a := BeginScanningIfNeeded(p);
    OneOf(a.1, Tick(a.0, now).1);
  }

  /** A first connect arms the budget and beats; an establishment clears everything but
      the verdict of expiry, and learns its target; and evidence saves a session that
      still stands, and only that. */
  lemma SessionInputsAnswer(p: Policy, address: string, port: nat, now: nat)
    ensures var q := p.(alive := false, establish := Some(now + p.cfg.budget), nextDial := now);
            Apply(p, Connect, now) == Apply(q, Ticked, now)
    ensures Apply(p, SessionEstablished(address, port), now)
            == (Fresh(p.cfg, p.target, address, port).(target := p.target, expired := p.expired, nextDial := now), [])
    ensures var quiet := p.(silent := None, graceUntil := None, waived := false, remembered := None);
            Apply(p, EvidenceReturned, now)
            == (if !p.alive then p
                else if !p.scanning then quiet
                else quiet.(scanning := false, nextScan := None, scanInterval := p.cfg.scanFloor), [])
  {
  }

  /** Silence starts its clock once on a standing session, and a path change waives the
      wait and hunts if silence is running, or grants a grace. */
  lemma SilenceAnswers(p: Policy, now: nat)
    ensures var q := p.(silent := if p.silent.None? then Some(now) else p.silent);
            Apply(p, WentSilent, now) == if p.alive then Apply(q, Ticked, now) else (p, [])
    ensures Apply(p, PathChanged, now)
            == if !p.alive then (p, [])
               else if p.silent.Some? then Hunted(p.(waived := true, graceUntil := None), now)
               else (p.(waived := true, graceUntil := Some(now + p.cfg.grace)), [])
  {
    if p.alive {
      HuntIs(p.(waived := true, graceUntil := None), now);
    }
  }

  /** A closure ends the session and hunts. */
  lemma ClosureAnswers(p: Policy, now: nat)
    ensures Apply(p, SessionClosed, now) == Hunted(p.(alive := false, remembered := None), now)
  {
    HuntIs(p.(alive := false, remembered := None), now);
  }

  /** A manual reconnect ends it too, resets both ladders and hunts afresh. */
  lemma ReconnectAnswers(p: Policy, now: nat)
    ensures Apply(p, ManualReconnect, now)
            == Hunted(p.(alive := false, scanning := false, remembered := None,
                         scanInterval := p.cfg.scanFloor, dialRetry := p.cfg.dialFloor, nextDial := now), now)
  {
    HuntIs(p.(alive := false, scanning := false, remembered := None,
              scanInterval := p.cfg.scanFloor, dialRetry := p.cfg.dialFloor, nextDial := now), now);
  }

  /** The lesser of the doubled wait and its ceiling. */
  function Longer(wait: nat, ceiling: nat): nat {
    if 2 * wait < ceiling then 2 * wait else ceiling
  }

  /** A sighting dialed: a host that moved resets the dial ladder. */
  function Sighted(p: Policy, s: Sighting, now: nat): Result {
    var q := if s.address == p.lastAddress then p else p.(dialRetry := p.cfg.dialFloor, nextDial := now);
    (q.(alive := false, remembered := None, dialInFlight := true, dialTarget := Some(s.address)),
     [Dial(s.address, s.port, true)])
  }

  /** A failed dial counts only when one was in flight. It ends the policy past the
      budget, makes way for the held sighting, or backs off on a doubling ladder and
      hunts, with a scan that was left waiting due at once. */
  lemma DialFailureAnswers(p: Policy, now: nat)
    ensures var f := p.(dialInFlight := false, dialTarget := None);
            Apply(p, DialFailed, now)
            == if !p.dialInFlight then (p, [])
               else if Passed(p.establish, now) then
                 (f.(establish := None, expired := true, scanning := false, nextScan := None, held := None), [Expired])
               else if p.held.Some? then Sighted(f.(held := None), p.held.value, now)
               else Hunted(f.(nextDial := now + p.dialRetry, dialRetry := Longer(p.dialRetry, p.cfg.dialCeiling),
                              nextScan := if p.scanning && !p.scanInFlight && p.nextScan.None? then Some(now)
                                          else p.nextScan), now)
  {
    var f := p.(dialInFlight := false, dialTarget := None);
    if p.dialInFlight && !Passed(p.establish, now) && p.held.None? { BacksOff(p, f, now); }
  }

  lemma BacksOff(p: Policy, f: Policy, now: nat)
    requires p.dialInFlight && !Passed(p.establish, now) && p.held.None?
    requires f == p.(dialInFlight := false, dialTarget := None)
    ensures Apply(p, DialFailed, now)
            == Hunted(f.(nextDial := now + p.dialRetry, dialRetry := Longer(p.dialRetry, p.cfg.dialCeiling),
                         nextScan := if p.scanning && !p.scanInFlight && p.nextScan.None? then Some(now)
                                     else p.nextScan), now)
  {
    var b := BackedOff(p, f, now);
    HuntIs(b, now);
  }

  lemma BackedOff(p: Policy, f: Policy, now: nat) returns (b: Policy)
    requires f == p.(dialInFlight := false, dialTarget := None)
    ensures b == BackOff(f, now)
    ensures b == f.(nextDial := now + p.dialRetry, dialRetry := Longer(p.dialRetry, p.cfg.dialCeiling),
                    nextScan := if p.scanning && !p.scanInFlight && p.nextScan.None? then Some(now) else p.nextScan)
  {
    b := BackOff(f, now);
  }

  /** The first sighting that shows the identity we look for, in either case. */
  predicate Found(sightings: seq<Sighting>, target: string, at: nat) {
    && at <= |sightings|
    && (forall k :: 0 <= k < at ==> Lowered(sightings[k].publicKeyHash) != target)
    && (at < |sightings| ==> Lowered(sightings[at].publicKeyHash) == target)
  }

  lemma {:induction false} MatchIs(sightings: seq<Sighting>, target: string) returns (at: nat)
    ensures Found(sightings, target, at)
    ensures Match(sightings, target) == if at < |sightings| then Some(sightings[at]) else None
  {
    at := 0;
    if sightings != [] && Lowered(sightings[0].publicKeyHash) != target {
      var rest := MatchIs(sightings[1..], target);
      at := rest + 1;
    }
  }

  /** The policy with its scan answered: the next one waits a doubling interval. */
  function Waiting(p: Policy, now: nat): Policy {
    p.(scanInFlight := false, nextScan := Some(now + p.scanInterval),
       scanInterval := Longer(p.scanInterval, p.cfg.scanCeiling))
  }

  /** What a sighting of the host changes in it: where it was, the host of a standing
      session is remembered; behind a dial in flight to another address, it is held. */
  function Noted(p: Policy, found: Sighting, now: nat): Policy {
    if found.address == p.lastAddress && p.alive && !p.waived then Waiting(p, now).(remembered := Some(found))
    else if p.dialTarget != Some(found.address) then Waiting(p, now).(held := Some(found))
    else Waiting(p, now)
  }

  /** A scan's answer is dropped unless scanning. A sighting worth a teardown is dialed at
      once when no dial is in flight; any other is noted, the next scan set, and a beat
      follows. */
  lemma ScanAnswers(p: Policy, sightings: seq<Sighting>, now: nat) returns (at: nat)
    ensures Found(sightings, p.target, at)
    ensures Apply(p, ScanCompleted(sightings), now)
            == if !p.scanning then (p.(scanInFlight := false), [])
               else if at == |sightings| then Apply(Waiting(p, now), Ticked, now)
               else
                 var found := sightings[at];
                 if !p.dialInFlight && (found.address != p.lastAddress || !p.alive || p.waived) then
                   Sighted(p.(scanInFlight := false), found, now)
                 else Apply(Noted(p, found, now), Ticked, now)
  {
    at := MatchIs(sightings, p.target);
    if p.scanning {
      if at < |sightings| { FoundAnswers(p, sightings, at, now); } else { MissedIs(p, sightings, now); }
    }
  }

  lemma MissedIs(p: Policy, sightings: seq<Sighting>, now: nat)
    requires p.scanning && Match(sightings, p.target).None?
    ensures Apply(p, ScanCompleted(sightings), now) == Apply(Waiting(p, now), Ticked, now)
  {
    assert Waiting(p, now) == ScheduleNextScan(p.(scanInFlight := false), now);
  }

  lemma FoundAnswers(p: Policy, sightings: seq<Sighting>, at: nat, now: nat)
    requires p.scanning && at < |sightings| && Match(sightings, p.target) == Some(sightings[at])
    ensures var found := sightings[at];
            Apply(p, ScanCompleted(sightings), now)
            == if !p.dialInFlight && (found.address != p.lastAddress || !p.alive || p.waived) then
                 Sighted(p.(scanInFlight := false), found, now)
               else Apply(Noted(p, found, now), Ticked, now)
  {
    var found := sightings[at];
    if found.address == p.lastAddress && p.alive && !p.waived {
      RememberedIs(p, sightings, found, now);
    } else if p.dialInFlight {
      HeldIs(p, sightings, found, now);
    } else {
      SightedIs(p, sightings, found, now);
    }
  }

  lemma RememberedIs(p: Policy, sightings: seq<Sighting>, found: Sighting, now: nat)
    requires p.scanning && Match(sightings, p.target) == Some(found)
    requires found.address == p.lastAddress && p.alive && !p.waived
    ensures Apply(p, ScanCompleted(sightings), now) == Apply(Noted(p, found, now), Ticked, now)
  {
    var q := p.(scanInFlight := false, remembered := Some(found));
    assert Noted(p, found, now) == ScheduleNextScan(q, now);
  }

  lemma HeldIs(p: Policy, sightings: seq<Sighting>, found: Sighting, now: nat)
    requires p.scanning && Match(sightings, p.target) == Some(found)
    requires p.dialInFlight && (found.address != p.lastAddress || !p.alive || p.waived)
    ensures Apply(p, ScanCompleted(sightings), now) == Apply(Noted(p, found, now), Ticked, now)
  {
    var r := HoldsIt(p, found, now);
  }

  lemma HoldsIt(p: Policy, found: Sighting, now: nat) returns (r: Policy)
    requires found.address != p.lastAddress || !p.alive || p.waived
    ensures var q := p.(scanInFlight := false);
            r == if Some(found.address) != q.dialTarget then q.(held := Some(found)) else q
    ensures ScheduleNextScan(r, now) == Noted(p, found, now)
  {
    var q := p.(scanInFlight := false);
    r := if Some(found.address) != q.dialTarget then q.(held := Some(found)) else q;
  }

  lemma SightedIs(p: Policy, sightings: seq<Sighting>, found: Sighting, now: nat)
    requires p.scanning && Match(sightings, p.target) == Some(found)
    requires !p.dialInFlight && (found.address != p.lastAddress || !p.alive || p.waived)
    ensures Apply(p, ScanCompleted(sightings), now) == Sighted(p.(scanInFlight := false), found, now)
  {}

  // ----- The deadline -------------------------------------------------------

  /** Something a beat does is due. */
  predicate Acts(p: Policy, now: nat) {
    || RunsOut(p, now) || Passed(p.graceUntil, now) || Stirs(p, now)
    || Recalls(p, now) || Probes(p, now) || Rescans(p, now)
  }

  lemma IdleBeat(p: Policy, now: nat)
    ensures Apply(p, Ticked, now) == (p, []) <==> !Acts(p, now)
  {
    TickAnswers(p, now);
    if Acts(p, now) && !RunsOut(p, now) {
      var q := Beaten(p, now);
      assert Stirs(p, now) ==> q.scanning != p.scanning;
      assert Probes(p, now) || Rescans(p, now) || Recalls(p, now) ==>
        q.dialInFlight != p.dialInFlight || q.scanInFlight != p.scanInFlight;
    }
  }

  predicate Before(now: nat, deadline: Option<nat>) {
    deadline.None? || now < deadline.value
  }

  lemma SoonerIs(a: Option<nat>, b: Option<nat>, now: nat)
    ensures Before(now, Sooner(a, b)) <==> Before(now, a) && Before(now, b)
  {}

  lemma DeadlineParts(p: Policy, now: nat)
    ensures Before(now, NextDeadline(p)) <==>
      && Before(now, SilenceDeadline(p)) && Before(now, p.graceUntil) && Before(now, ScanDeadline(p))
      && Before(now, ProbeDeadline(p)) && Before(now, RememberedReadyAt(p)) && Before(now, BudgetDeadline(p))
  {
    var e := Sooner(RememberedReadyAt(p), BudgetDeadline(p));
    var d := Sooner(ProbeDeadline(p), e);
    var c := Sooner(ScanDeadline(p), d);
    var b := Sooner(p.graceUntil, c);
    SoonerIs(RememberedReadyAt(p), BudgetDeadline(p), now);
    SoonerIs(ProbeDeadline(p), e, now);
    SoonerIs(ScanDeadline(p), d, now);
    SoonerIs(p.graceUntil, c, now);
    SoonerIs(SilenceDeadline(p), b, now);
  }

  /** As long as a dial in flight means no session stands, which every run keeps. */
  lemma DeadlineActs(p: Policy, now: nat)
    requires p.dialInFlight ==> !p.alive
    ensures Acts(p, now) <==> !Before(now, NextDeadline(p))
  {
    DeadlineParts(p, now);
  }

  /** Letters are compared without regard to case, and nothing else is changed. */
  lemma LoweredIs(s: string, i: nat)
    requires i < |s|
    ensures |Lowered(s)| == |s|
    ensures Lowered(s)[i] as int == s[i] as int + if 65 <= s[i] as int <= 90 then 32 else 0
  {}
}
