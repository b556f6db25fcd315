/** What each input event leaves held, sends and keeps from the local app, whatever
    was held before it, in the policy's own fields: a forwarded press passes through
    the event's record, the Caps Lock and the command key, and what is left is one
    plain answer. */
module InputAnswers {
  import opened Wrappers
  import opened InputForwarding

  // ----- A key goes down ----------------------------------------------------

  /** The press is a shortcut of the local app. */
  predicate Local(e: Press) {
    e.commandHeld && e.isLocalShortcut
  }

  /** The modifiers held once the event's own record replaced the plain ones. */
  function Recorded(held: set<int>, down: Option<set<int>>): set<int> {
    if down.Some? then (held - PLAIN) + (down.value * PLAIN) else held
  }

  /** The press joins or opens a chord on a Ctrl that is not down by itself. */
  predicate OpensChord(p: Policy, e: Press) {
    var held := Recorded(p.heldKeys, e.modifiersDown);
    e.commandHeld && e.typesLetter && (p.chord != {} || held !! {29, 97})
  }

  /** What is held once a forwarded press of `code` went out. A letter typed with
      Command holds the command keys back and shows as Ctrl; any other press sends them
      if Command is held and lets them go if not. */
  function Pressed(p: Policy, e: Press, code: int): Policy {
    var held := Recorded(p.heldKeys, e.modifiersDown);
    var letter := e.commandHeld && e.typesLetter;
    var keys := if letter then held - COMMANDS
                else if e.commandHeld then held + p.pending
                else held - COMMANDS;
    Policy(
      keys + {code}, p.heldButtons,
      if letter then p.pending + (held * COMMANDS) else {},
      if e.mac.Some? then p.pressedAs[e.mac.value := code] else p.pressedAs,
      if !letter then {} else if OpensChord(p, e) then p.chord + {code} else p.chord,
      if e.capsLockOn.Some? then e.capsLockOn.value else p.hostCapsLock)
  }

  /** A press goes out, last in its batch, unless it is the local app's, a repeat, or of
      a key that has no code; and nothing else sends. It stays with us when it went out,
      when it repeats a key that is held, and when it repeats at all and is not the local
      app's. */
  lemma KeyDownAnswers(p: Policy, e: Press)
    ensures var code := CodeOf(p, e.mapped, e.mac);
            var (q, v) := OnKeyDown(p, e);
            && (v.sends != [] <==> !Local(e) && !e.isRepeat && code.Some?)
            && (v.sends != [] ==> q == Pressed(p, e, code.value) && v.sends[|v.sends| - 1] == Key(code.value, true))
            && (v.sends == [] ==> q == p)
            && (v.consumed <==>
                  || (code.Some? && e.isRepeat && code.value in p.heldKeys)
                  || (!Local(e) && (e.isRepeat || code.Some?)))
  {
    var code := CodeOf(p, e.mapped, e.mac);
    if Forwards(p, e) {
      ForwardIs(p, e, code.value);
    }
  }

  lemma ForwardIs(p: Policy, e: Press, code: int)
    ensures var f := Forward(p, e, code);
            f.0 == Pressed(p, e, code) && f.1 != [] && f.1[|f.1| - 1] == Key(code, true)
  {
    var a := ResyncIs(p, e);
    var b := JoinIs(a, e, code);
  }

  lemma ResyncIs(p: Policy, e: Press) returns (q: Policy)
    ensures q == Resync(p, e).0
    ensures q == p.(heldKeys := Recorded(p.heldKeys, e.modifiersDown),
                    chord := if e.commandHeld && e.typesLetter then p.chord else {},
                    hostCapsLock := if e.capsLockOn.Some? then e.capsLockOn.value else p.hostCapsLock)
  {
    q := Resync(p, e).0;
    assert q.heldKeys == Recorded(p.heldKeys, e.modifiersDown);
  }

  lemma JoinIs(p: Policy, e: Press, code: int) returns (q: Policy)
    ensures q == JoinCommand(p, e, code).0
    ensures var letter := e.commandHeld && e.typesLetter;
            q == p.(heldKeys := if letter || !e.commandHeld then p.heldKeys - COMMANDS else p.heldKeys + p.pending,
                    pending := if letter then p.pending + (p.heldKeys * COMMANDS) else {},
                    chord := if !letter || (p.chord == {} && (29 in p.heldKeys || 97 in p.heldKeys)) then p.chord
                             else p.chord + {code})
  {
    q := JoinCommand(p, e, code).0;
    assert p.heldKeys - (p.heldKeys * COMMANDS) == p.heldKeys - COMMANDS;
    var left := (p.heldKeys - COMMANDS) * CONTROLS;
    assert 29 in left <==> 29 in p.heldKeys;
    assert 97 in left <==> 97 in p.heldKeys;
    assert left != {} ==> 29 in left || 97 in left;
  }

  // ----- The other events ---------------------------------------------------

  /** A release goes out if its key is held, as its press's code, and lets the chord's
      Ctrl go with the chord's last key; the key's code is forgotten either way. It is
      left to the local app when the key has no code, or was not held under Command. */
  lemma KeyUpAnswers(p: Policy, mapped: Option<int>, mac: Option<int>, commandHeld: bool)
    ensures var code := CodeOf(p, mapped, mac);
            var held := code.Some? && code.value in p.heldKeys;
            var (q, v) := OnKeyUp(p, mapped, mac, commandHeld);
            && q == p.(heldKeys := if held then p.heldKeys - {code.value} else p.heldKeys,
                       chord := if held then p.chord - {code.value} else p.chord,
                       pressedAs := if mac.Some? then p.pressedAs - {mac.value} else p.pressedAs)
            && v.sends == (if !held then []
                           else if p.chord == {code.value} then [Key(code.value, false), Key(29, false)]
                           else [Key(code.value, false)])
            && (v.consumed <==> code.Some? && (held || !commandHeld))
  {
    var code := CodeOf(p, mapped, mac);
    if code.Some? && code.value in p.chord {
      assert p.chord - {code.value} == {} <==> p.chord == {code.value};
    }
  }

  /** A command key waits until a press, and is forgotten when it is let go first; left
      Ctrl takes over from a chord without a sound. Any other modifier goes out, and a
      release only of what is held. All of them stay with us. */
  lemma ModifierAnswers(p: Policy, code: int, pressed: bool)
    ensures var (q, v) := OnModifier(p, code, pressed);
            var command := code == 125 || code == 126;
            var takesOver := code == 29 && p.chord != {};
            && v.consumed
            && v.sends == (if pressed && !command && !takesOver then [Key(code, true)]
                           else if !pressed && code !in p.pending && code in p.heldKeys then [Key(code, false)]
                           else [])
            && q.heldKeys == (if pressed then (if command then p.heldKeys else p.heldKeys + {code})
                              else if code in p.pending then p.heldKeys else p.heldKeys - {code})
            && q.pending == (if !pressed then p.pending - {code}
                             else if command && code !in p.heldKeys then p.pending + {code} else p.pending)
            && q.chord == (if pressed && takesOver then {} else p.chord)
            && q == p.(heldKeys := q.heldKeys, pending := q.pending, chord := q.chord)
  {
    assert code in COMMANDS <==> code == 125 || code == 126;
  }

  /** What is held once a click of `code` went out: the chord ends, the plain modifiers
      follow the record, and the command keys go out or are let go. */
  function Clicked(p: Policy, code: int, withCommand: bool, down: Option<set<int>>): Policy {
    var held := Recorded(p.heldKeys, down);
    p.(heldKeys := if withCommand then held + p.pending else held - COMMANDS,
       heldButtons := p.heldButtons + {code}, pending := {}, chord := {})
  }

  /** A button goes down on the video only, last in its batch, and up only if it is held;
      the rest is the local app's. */
  lemma ButtonAnswers(p: Policy, button: Option<int>, down: bool, onVideo: bool, withCommand: bool,
                      modifiersDown: Option<set<int>>)
    ensures var (q, v) := OnButton(p, button, down, onVideo, withCommand, modifiersDown);
            var clicks := button.Some? && down && onVideo;
            var lets := button.Some? && !down && button.value in p.heldButtons;
            && (v.consumed <==> clicks || lets)
            && (clicks ==>
                  && q == Clicked(p, button.value, withCommand, modifiersDown)
                  && v.sends != [] && v.sends[|v.sends| - 1] == Button(button.value, true))
            && (lets ==>
                  && q == p.(heldButtons := p.heldButtons - {button.value})
                  && v.sends == [Button(button.value, false)])
            && (!clicks && !lets ==> q == p && v.sends == [])
  {
    if button.Some? && down && onVideo {
      var b := ResyncModifiers(ReleaseChord(p).0, modifiersDown).0;
      assert b.heldKeys == Recorded(p.heldKeys, modifiersDown);
      assert b.heldKeys - (b.heldKeys * COMMANDS) == b.heldKeys - COMMANDS;
      assert OnButton(p, button, down, onVideo, withCommand, modifiersDown).0
             == Clicked(p, button.value, withCommand, modifiersDown);
    }
  }

  /** A Caps Lock change taps the key if the host disagrees, a release lets everything
      go, and both stay with us. */
  lemma CapsAndReleaseAnswer(p: Policy, on: bool)
    ensures var (q, v) := Apply(p, CapsLockChanged(on));
            && v.consumed && q == p.(hostCapsLock := on)
            && v.sends == (if on == p.hostCapsLock then [] else [Key(58, true), Key(58, false)])
    ensures var (q, v) := Apply(p, ReleaseAll);
            v.consumed && q == Fresh.(hostCapsLock := p.hostCapsLock)
  {
  }
}
