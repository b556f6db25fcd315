/** What the player answers for each assembled frame: which are stored, which are
    promised, and when a keyframe ends the damage, read off the run's events alone. */
module BrowserAdmission {
  import opened Wrappers
  import opened BrowserVideoPlayout
  import opened BrowserVideoRuns
  import Closure = BrowserDecodeClosure
  import Presentation = BrowserPresentation
  import opened BrowserAdmissionSteps

  // ----- Damage -------------------------------------------------------------

  /** The newest damage still unanswered after a run, and None when a keyframe was
      assembled since. While damage stands inter frames are turned away, and what
      would have happened to them does not happen. */
  ghost function Damage(es: seq<Event>): Option<nat>
    decreases |es|
  {
    if es == [] then None
    else
      var s, e := Run(es[..|es| - 1]), es[|es| - 1];
      var before := Damage(es[..|es| - 1]);
      if !Enabled(s, e) then before
      else if e.Assembled? && e.unit.isRandomAccess then None
      else if e.Assembled? && before.Some? then before
      else if NewDamage(s, e).Some? then NewDamage(s, e)
      else before
  }

  /** The recovery is open exactly while damage stands, and names the newest. */
  lemma {:induction false} RecoveryIsDamage(es: seq<Event>)
    ensures var r := Run(es).p.recovery;
      (if r.episode.Some? then Some(r.episode.value.newestDamagedFrame) else None) == Damage(es)
    decreases |es|
  {
    if es != [] {
      var s, e := Run(es[..|es| - 1]), es[|es| - 1];
      RecoveryIsDamage(es[..|es| - 1]);
      Closure.RunKeepsInv(es[..|es| - 1]);
      Presentation.RunKeeps(es[..|es| - 1]);
      if Enabled(s, e) { StepDamages(s, e); }
    }
  }

  // ----- The answers --------------------------------------------------------

  /** In every run a keyframe is stored with its own bytes, ends the recovery, is
      kept for its beat, and is promised exactly when it is not late. */
  lemma KeyframeAnswers(es: seq<Event>, unit: DecodeUnit, beat: Beat, arrival: nat)
    requires Enabled(Run(es), Assembled(unit, beat, arrival)) && unit.isRandomAccess
    ensures KeyTaken(Run(es), Step(Run(es), Assembled(unit, beat, arrival)), unit, beat)
  {
    Closure.RunKeepsInv(es);
    Presentation.RunKeeps(es);
    var t := KeyframeIsAnswered(Run(es), unit, beat, arrival);
  }

  /** While damage stands an inter frame is turned away: counted undecodable, not
      promised, and nothing else of the player moves. */
  lemma DamageTurnsAway(es: seq<Event>, unit: DecodeUnit, beat: Beat, arrival: nat)
    requires Enabled(Run(es), Assembled(unit, beat, arrival)) && !unit.isRandomAccess && Damage(es).Some?
    ensures var s := Run(es);
      var t := Step(s, Assembled(unit, beat, arrival));
      t.p == s.p.(undecodable := s.p.undecodable + 1) && t.promised == s.promised
      && unit.frame !in t.p.annexB
  {
    RecoveryIsDamage(es);
    Closure.RunKeepsInv(es);
    InterIsRefused(Run(es), unit, beat, arrival);
  }

  /** And with none standing it is stored, exactly unless the backlog is full of
      frames that all lean on the oldest; and it is promised exactly when it is not
      late and the handoff takes it: not flushed, not waiting, not overwhelmed. */
  lemma InterAnswers(es: seq<Event>, unit: DecodeUnit, beat: Beat, arrival: nat)
    requires Enabled(Run(es), Assembled(unit, beat, arrival)) && !unit.isRandomAccess && Damage(es).None?
    ensures InterTaken(Run(es), Step(Run(es), Assembled(unit, beat, arrival)), unit, beat, arrival)
  {
    RecoveryIsDamage(es);
    Closure.RunKeepsInv(es);
    Presentation.RunKeeps(es);
    var t := InterIsAnswered(Run(es), unit, beat, arrival);
  }
}
