/** Where the dials of a run go, read off its events: probes to the last address a
    session stood at, the others to a sighting some scan of the run brought. */
module RoamingTargets {
  import opened RoamingPolicy
  import opened RoamingSteps
  import opened RoamingTargetSteps

  // ----- Probes -------------------------------------------------------------

  /** Where the newest session of these events was established, or `at`. */
  function LastKnown(events: seq<Event>, at: Place): Place
    decreases |events|
  {
    if events == [] then at
    else
      var input := events[0].input;
      LastKnown(events[1..], if input.SessionEstablished? then Place(input.address, input.port) else at)
  }

  lemma {:induction false} RunKnows(p: Policy, events: seq<Event>)
    ensures PlaceOf(Run(p, events)) == LastKnown(events, PlaceOf(p))
    decreases |events|
  {
    if events != [] {
      var r := ApplyKnows(p, events[0].input, events[0].now);
      RunKnows(r.0, events[1..]);
    }
  }

  /** In every run every blind probe goes to the place where the newest session was
      established before it, or else to the one the window first connected to. */
  lemma ProbesGoToTheLastKnown(
    cfg: Config, target: string, address: string, port: nat, start: nat, events: seq<Event>, input: Input, now: nat,
    a: string, n: nat)
    requires !input.Connect?
    requires Dial(a, n, false) in Apply(Run(Connected(cfg, target, address, port, start), events), input, now).1
    ensures Place(a, n) == LastKnown(events, Place(address, port))
  {
    var p := Connected(cfg, target, address, port, start);
    var r := ApplyKnows(Fresh(cfg, target, address, port), Connect, start);
    RunKnows(p, events);
    var s := ApplyKnows(Run(p, events), input, now);
  }

  /** The first connect itself dials where it was told to. */
  lemma ConnectDialsItsTarget(cfg: Config, target: string, address: string, port: nat, start: nat)
    requires cfg.Valid()
    ensures Apply(Fresh(cfg, target, address, port), Connect, start).1 == [Dial(address, port, false)]
  {
    var p := Connecting(Fresh(cfg, target, address, port), start);
    assert Wake(p, start).1 == [];
    assert Judge(Wake(p, start).0, start).1 == [Dial(address, port, false)];
  }

  // ----- Sighted dials ------------------------------------------------------

  /** Some scan of these events brought the sighting as its first of this identity. */
  ghost predicate Seen(events: seq<Event>, target: string, s: Sighting) {
    exists i :: 0 <= i < |events| && Brought(events[i].input, target, s)
  }

  lemma SeenOn(events: seq<Event>, e: Event, target: string, s: Sighting)
    requires Seen(events, target, s) || Brought(e.input, target, s)
    ensures Seen(events + [e], target, s)
  {
    if Brought(e.input, target, s) {
      assert (events + [e])[|events|] == e;
    } else {
      var i :| 0 <= i < |events| && Brought(events[i].input, target, s);
      assert (events + [e])[i] == events[i];
    }
  }

  lemma {:induction false} RunSnoc(p: Policy, events: seq<Event>, e: Event)
    ensures Run(p, events + [e]) == Apply(Run(p, events), e.input, e.now).0
    decreases |events|
  {
    if events == [] {
      assert [] + [e] == [e] && [e][1..] == [];
    } else {
      assert (events + [e])[1..] == events[1..] + [e];
      RunSnoc(Apply(p, events[0].input, events[0].now).0, events[1..], e);
    }
  }

  /** Whatever a run holds or remembers, one of its scans brought. */
  lemma {:induction false} KeptWasSeen(p: Policy, events: seq<Event>)
    requires p.held.None? && p.remembered.None?
    ensures var q := Run(p, events);
      && q.target == p.target
      && (q.held.Some? ==> Seen(events, p.target, q.held.value))
      && (q.remembered.Some? ==> Seen(events, p.target, q.remembered.value))
    decreases |events|
  {
    if events != [] {
      var init, e := events[..|events| - 1], events[|events| - 1];
      assert events == init + [e];
      KeptWasSeen(p, init);
      RunSnoc(p, init, e);
      var r := ApplySights(Run(p, init), e.input, e.now);
      var q := r.0;
      if q.held.Some? { SeenOn(init, e, p.target, q.held.value); }
      if q.remembered.Some? { SeenOn(init, e, p.target, q.remembered.value); }
    }
  }

  /** In every run a dial that is no probe goes to a sighting of the host's identity
      that this or an earlier scan brought. */
  lemma SightedDialsWereSeen(
    cfg: Config, target: string, address: string, port: nat, start: nat, events: seq<Event>, e: Event,
    a: string, n: nat)
    requires cfg.Valid()
    requires Dial(a, n, true) in Apply(Run(Connected(cfg, target, address, port, start), events), e.input, e.now).1
    ensures exists s: Sighting :: Seen(events + [e], Lowered(target), s) && s.address == a && s.port == n
  {
    var p := Connected(cfg, target, address, port, start);
    FirstConnectKeepsNone(cfg, target, address, port, start);
    KeptWasSeen(p, events);
    var q := Run(p, events);
    var r := ApplySights(q, e.input, e.now);
    var s: Sighting :| Known(q, e.input, s) && s.address == a && s.port == n;
    SeenOn(events, e, p.target, s);
  }

  lemma FirstConnectKeepsNone(cfg: Config, target: string, address: string, port: nat, start: nat)
    requires cfg.Valid()
    ensures var p := Connected(cfg, target, address, port, start);
      p.held.None? && p.remembered.None? && p.target == Lowered(target)
  {
    var p := Connecting(Fresh(cfg, target, address, port), start);
    var r := TickSights(p, start);
  }
}
