/** The forwarding policy in its mutable form. */
module InputForwarder {
  import opened Wrappers
  import opened IntSets
  import opened InputForwarding

  class InputForwarder {
    var heldKeys: set<int>
    var heldButtons: set<int>
    var pendingCommandKeys: set<int>
    var pressedAs: map<int, int>
    var controlChordKeys: set<int>
    var hostCapsLock: bool

    ghost function State(): Policy
      reads this
    {
      Policy(heldKeys, heldButtons, pendingCommandKeys, pressedAs, controlChordKeys, hostCapsLock)
    }

    constructor ()
      ensures State() == Fresh
    {
      heldKeys, heldButtons, pendingCommandKeys := {}, {}, {};
      pressedAs, controlChordKeys, hostCapsLock := map[], {}, false;
    }

    method ReleaseChordControl() returns (sends: seq<Edge>)
      modifies this`controlChordKeys
      ensures (State(), sends) == ReleaseChord(old(State()))
    {
      if controlChordKeys == {} { return []; }
      controlChordKeys := {};
      return [Key(LEFT_CTRL, false)];
    }

    method SyncCapsLock(on: bool) returns (sends: seq<Edge>)
      modifies this`hostCapsLock
      ensures (State(), sends) == SyncCaps(old(State()), on)
    {
      if on == hostCapsLock { return []; }
      hostCapsLock := on;
      return [Key(CAPS_LOCK, true), Key(CAPS_LOCK, false)];
    }

    method MatchModifiers(reported: Option<set<int>>) returns (sends: seq<Edge>)
      modifies this`heldKeys
      ensures (State(), sends) == ResyncModifiers(old(State()), reported)
    {
      if reported.None? { return []; }
      var down := reported.value * PLAIN;
      var held := heldKeys * PLAIN;
      var stale := Ascending(held - down);
      var missing := Ascending(down - held);
      heldKeys := heldKeys - (held - down) + (down - held);
      sends := KeyEdges(stale, false) + KeyEdges(missing, true);
    }

    method HoldCommandBack() returns (sends: seq<Edge>)
      modifies this`heldKeys, this`pendingCommandKeys
      ensures (State(), sends) == HoldBackCommand(old(State()))
    {
      var forwarded := heldKeys * COMMANDS;
      var order := Ascending(forwarded);
      heldKeys, pendingCommandKeys := heldKeys - forwarded, pendingCommandKeys + forwarded;
      sends := KeyEdges(order, false);
    }

    method MatchCommand(held: bool) returns (sends: seq<Edge>)
      modifies this`heldKeys, this`pendingCommandKeys
      ensures (State(), sends) == ResyncCommand(old(State()), held)
    {
      var pending := Ascending(pendingCommandKeys);
      if held {
        heldKeys := heldKeys + pendingCommandKeys;
        sends := KeyEdges(pending, true);
      } else {
        var stale := Ascending(heldKeys * COMMANDS);
        heldKeys := heldKeys - heldKeys * COMMANDS;
        sends := KeyEdges(stale, false);
      }
      pendingCommandKeys := {};
    }

    method MatchEvent(e: Press) returns (sends: seq<Edge>)
      modifies this
      ensures (State(), sends) == Resync(old(State()), e)
    {
      sends := [];
      if !IsChord(e) { sends := ReleaseChordControl(); }
      var caps := [];
      if e.capsLockOn.Some? { caps := SyncCapsLock(e.capsLockOn.value); }
      var modifiers := MatchModifiers(e.modifiersDown);
      sends := sends + (caps + modifiers);
    }

    method JoinChordOrCommand(e: Press, code: int) returns (sends: seq<Edge>)
      modifies this
      ensures (State(), sends) == JoinCommand(old(State()), e, code)
    {
      if !IsChord(e) {
        sends := MatchCommand(e.commandHeld);
        return;
      }
      sends := HoldCommandBack();
      if controlChordKeys != {} || heldKeys * CONTROLS == {} {
        sends := sends + if controlChordKeys == {} then [Key(LEFT_CTRL, true)] else [];
        controlChordKeys := controlChordKeys + {code};
      }
    }

    method KeyWentDown(e: Press) returns (v: Verdict)
      modifies this
      ensures (State(), v) == OnKeyDown(old(State()), e)
    {
      var code := CodeOf(Policy(heldKeys, heldButtons, pendingCommandKeys, pressedAs, controlChordKeys, hostCapsLock),
                         e.mapped, e.mac);
      if e.isRepeat && code.Some? && code.value in heldKeys { return Swallow; }
      if e.commandHeld && e.isLocalShortcut { return PassThrough; }
      if e.isRepeat { return Swallow; }
      if code.None? { return PassThrough; }
      var resync := MatchEvent(e);
      var join := JoinChordOrCommand(e, code.value);
      heldKeys := heldKeys + {code.value};
      if e.mac.Some? { pressedAs := pressedAs[e.mac.value := code.value]; }
      v := Verdict(resync + (join + [Key(code.value, true)]), true);
    }

    method KeyWentUp(mapped: Option<int>, mac: Option<int>, commandHeld: bool) returns (v: Verdict)
      modifies this
      ensures (State(), v) == OnKeyUp(old(State()), mapped, mac, commandHeld)
    {
      var code := mapped;
      if mac.Some? {
        if mac.value in pressedAs { code := Some(pressedAs[mac.value]); }
        pressedAs := pressedAs - {mac.value};
      }
      if code.None? { return PassThrough; }
      if code.value in heldKeys {
        heldKeys := heldKeys - {code.value};
        var sends := [Key(code.value, false)];
        if code.value in controlChordKeys {
          controlChordKeys := controlChordKeys - {code.value};
          if controlChordKeys == {} { return Verdict(sends + [Key(LEFT_CTRL, false)], true); }
        } else {
          assert controlChordKeys - {code.value} == controlChordKeys;
        }
        assert sends + [] == sends;
        return Verdict(sends, true);
      }
      return if commandHeld then PassThrough else Swallow;
    }

    method ModifierChanged(code: int, pressed: bool) returns (v: Verdict)
      modifies this
      ensures (State(), v) == OnModifier(old(State()), code, pressed)
    {
      if pressed {
        if code in COMMANDS {
          if code !in heldKeys { pendingCommandKeys := pendingCommandKeys + {code}; }
          return Swallow;
        }
        if code == LEFT_CTRL && controlChordKeys != {} {
          controlChordKeys, heldKeys := {}, heldKeys + {code};
          return Swallow;
        }
        heldKeys := heldKeys + {code};
        return Verdict([Key(code, true)], true);
      }
      if code in pendingCommandKeys {
        pendingCommandKeys := pendingCommandKeys - {code};
        return Swallow;
      }
      if code in heldKeys {
        heldKeys := heldKeys - {code};
        return Verdict([Key(code, false)], true);
      }
      return Swallow;
    }

    method ButtonChanged(button: Option<int>, down: bool, onVideo: bool, withCommand: bool,
                         modifiersDown: Option<set<int>>) returns (v: Verdict)
      modifies this
      ensures (State(), v) == OnButton(old(State()), button, down, onVideo, withCommand, modifiersDown)
    {
      if button.None? { return PassThrough; }
      if down {
        if !onVideo { return PassThrough; }
        var a := ReleaseChordControl();
        var b := MatchModifiers(modifiersDown);
        var c := MatchCommand(withCommand);
        heldButtons := heldButtons + {button.value};
        return Verdict(a + (b + (c + [Button(button.value, true)])), true);
      }
      if button.value in heldButtons {
        heldButtons := heldButtons - {button.value};
        return Verdict([Button(button.value, false)], true);
      }
      return PassThrough;
    }

    method ReleaseEverything() returns (sends: seq<Edge>)
      modifies this
      ensures (State(), sends) == OnReleaseAll(old(State()))
    {
      var keys := Ascending(heldKeys);
      var buttons := Ascending(heldButtons);
      var ctrl := ReleaseChordControl();
      sends := KeyEdges(keys, false) + ctrl + ButtonReleases(buttons);
      heldKeys, heldButtons, pendingCommandKeys, pressedAs := {}, {}, {}, map[];
    }
  }
}
