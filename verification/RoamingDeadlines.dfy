/** The driver's timer, over every run: no beat before it does anything, and the beat
    at it does. */
module RoamingDeadlines {
  import opened RoamingPolicy
  import opened RoamingSteps
  import opened RoamingRuns
  import opened RoamingAnswers

  /** In every run begun by a connect the deadline is exact: until it a beat changes
      nothing and sends nothing, however often the driver ticks; from it on a beat acts;
      and without one none ever does. */
  lemma DeadlineIsExact(cfg: Config, target: string, address: string, port: nat, start: nat,
                        events: seq<Event>, now: nat)
    requires cfg.Valid() && Ordered(events, start)
    ensures var p := Run(Connected(cfg, target, address, port, start), events);
            Apply(p, Ticked, now) == (p, [])
            <==> NextDeadline(p).None? || now < NextDeadline(p).value
  {
    ConnectedInv(cfg, target, address, port, start);
    RunKeeps(Connected(cfg, target, address, port, start), events, start);
    var p := Run(Connected(cfg, target, address, port, start), events);
    IdleBeat(p, now);
    DeadlineActs(p, now);
  }
}
