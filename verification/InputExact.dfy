/** When the host's view is exactly the client's, and what each event breaks. */
module InputExact {
  import opened Wrappers
  import opened IntSets
  import opened InputForwarding
  import opened InputReplay

  /** The host holds down exactly what the client holds, plus the Ctrl a chord
      added, which may be held as a key besides. */
  predicate Exact(p: Policy, h: Host) {
    && h.keys == p.heldKeys + ChordCtrl(p) && h.buttons == p.heldButtons && p.pending <= COMMANDS
  }

  /** As Exact, but the host has lost these. */
  predicate ExactBut(p: Policy, h: Host, lost: set<int>) {
    && h.keys == p.heldKeys + ChordCtrl(p) - lost && lost <= p.heldKeys + ChordCtrl(p)
    && h.buttons == p.heldButtons && p.pending <= COMMANDS
  }

  // ----- The breaking events ------------------------------------------------

  /** Left Ctrl is down once on the host and twice here: for a chord and as a key
      of its own. Whichever lets go first takes it from the other. */
  predicate Shared(p: Policy) {
    p.chord != {} && LEFT_CTRL in p.heldKeys
  }

  /** The event's own record says left Ctrl is up. */
  predicate ReportsCtrlUp(down: Option<set<int>>) {
    down.Some? && LEFT_CTRL !in down.value
  }

  /** With Ctrl shared, the event lets one of its two holders go and not both: a
      press that ends the chord, or one in the chord whose record says Ctrl is up;
      Ctrl's own release, or the release of the chord's last key; or a click. */
  predicate DropsCtrl(p: Policy, e: Event) {
    Shared(p) &&
    match e
    case KeyDown(press) =>
      && Forwards(p, press) && CodeOf(p, press.mapped, press.mac).value != LEFT_CTRL
      && (IsChord(press) <==> ReportsCtrlUp(press.modifiersDown))
    case KeyUp(mapped, mac, _) =>
      var code := CodeOf(p, mapped, mac);
      && code.Some? && code.value in p.heldKeys
      && (p.chord == {code.value} <==> code.value != LEFT_CTRL)
    case Modifier(code, pressed) => code == LEFT_CTRL && !pressed
    case CapsLockChanged(_) => false
    case ButtonEdge(button, down, onVideo, _, modifiersDown) =>
      button.Some? && down && onVideo && !ReportsCtrlUp(modifiersDown)
    case ReleaseAll => false
  }

  predicate TapsWhileHeld(p: Policy, on: Option<bool>) {
    on.Some? && on.value != p.hostCapsLock && CAPS_LOCK in p.heldKeys
  }

  /** The event taps Caps Lock while Caps Lock is itself held as a key. */
  predicate DropsCapsLock(p: Policy, e: Event) {
    match e
    case KeyDown(press) =>
      && Forwards(p, press) && TapsWhileHeld(p, press.capsLockOn)
      && CodeOf(p, press.mapped, press.mac).value != CAPS_LOCK
    case CapsLockChanged(on) => TapsWhileHeld(p, Some(on))
    case _ => false
  }

  predicate Breaks(p: Policy, e: Event) {
    DropsCtrl(p, e) || DropsCapsLock(p, e)
  }

  // ----- A forwarded press --------------------------------------------------

  /** What bringing the modifiers up to date costs the host. */
  function LostByResync(p: Policy, e: Press): set<int> {
    (if TapsWhileHeld(p, e.capsLockOn) then {CAPS_LOCK} else {})
    + (if Shared(p) && (IsChord(e) <==> ReportsCtrlUp(e.modifiersDown)) then {LEFT_CTRL} else {})
  }

  lemma ChordReleaseLoses(p: Policy, h: Host) returns (g: Host)
    requires Exact(p, h)
    ensures g == Replay(h, ReleaseChord(p).1)
    ensures ExactBut(ReleaseChord(p).0, g, if Shared(p) then {LEFT_CTRL} else {})
  {
    g := ReleaseChordEffect(p, h);
  }

  lemma CapsTapLoses(p: Policy, on: Option<bool>, h: Host, lost: set<int>) returns (g: Host)
    requires ExactBut(p, h, lost) && lost <= {LEFT_CTRL}
    ensures g == Replay(h, SyncCapsIfKnown(p, on).1)
    ensures ExactBut(SyncCapsIfKnown(p, on).0, g, lost + (if TapsWhileHeld(p, on) then {CAPS_LOCK} else {}))
  {
    g := SyncCapsEffect(p, on, h);
  }

  /** A record that says Ctrl is up releases it here as a key: that mends what the
      chord's end took, and takes Ctrl from a chord that goes on. */
  function LostAfterRecord(p: Policy, down: Option<set<int>>, lost: set<int>): set<int> {
    if !ReportsCtrlUp(down) then lost
    else if p.chord == {} then lost - {LEFT_CTRL}
    else lost + (if Shared(p) then {LEFT_CTRL} else {})
  }

  lemma RecordLoses(p: Policy, down: Option<set<int>>, h: Host, lost: set<int>) returns (g: Host)
    requires ExactBut(p, h, lost) && lost <= {LEFT_CTRL, CAPS_LOCK}
    requires LEFT_CTRL in lost ==> p.chord == {}
    ensures g == Replay(h, ResyncModifiers(p, down).1)
    ensures ExactBut(ResyncModifiers(p, down).0, g, LostAfterRecord(p, down, lost))
  {
    g := ResyncModifiersEffect(p, down, h);
  }

  lemma ResyncLoses(p: Policy, e: Press, h: Host) returns (g: Host)
    requires Exact(p, h)
    ensures g == Replay(h, Resync(p, e).1) && ExactBut(Resync(p, e).0, g, LostByResync(p, e))
  {
    var a := if IsChord(e) then (p, []) else ReleaseChord(p);
    var ha := ChordReleaseLoses(p, h);
    if IsChord(e) { ha := h; }
    var lost := if Shared(p) && !IsChord(e) then {LEFT_CTRL} else {};
    var b := SyncCapsIfKnown(a.0, e.capsLockOn);
    var hb := CapsTapLoses(a.0, e.capsLockOn, ha, lost);
    var lostB := lost + (if TapsWhileHeld(p, e.capsLockOn) then {CAPS_LOCK} else {});
    var c := ResyncModifiers(b.0, e.modifiersDown);
    g := RecordLoses(b.0, e.modifiersDown, hb, lostB);
    assert LostAfterRecord(b.0, e.modifiersDown, lostB) == LostByResync(p, e);
    ReplayAppend(h, a.1, b.1 + c.1);
    ReplayAppend(ha, b.1, c.1);
  }

  lemma JoinCommandLoses(p: Policy, e: Press, code: int, h: Host, lost: set<int>) returns (g: Host)
    requires ExactBut(p, h, lost) && lost <= {LEFT_CTRL, CAPS_LOCK}
    requires if IsChord(e) then LEFT_CTRL in lost ==> p.chord != {} else p.chord == {}
    ensures g == Replay(h, JoinCommand(p, e, code).1) && ExactBut(JoinCommand(p, e, code).0, g, lost)
  {
    if IsChord(e) {
      var b := HoldBackCommand(p);
      g := HoldBackEffect(p, h);
      if b.0.chord == {} && b.0.heldKeys * CONTROLS == {} {
        ReplayAppend(h, b.1, [Key(LEFT_CTRL, true)]);
        ReplayOne(g, Key(LEFT_CTRL, true));
        g := Feed(g, Key(LEFT_CTRL, true));
      } else {
        assert b.1 + [] == b.1;
      }
    } else {
      g := ResyncCommandEffect(p, e.commandHeld, h);
    }
  }

  lemma ForwardLoses(p: Policy, e: Press, code: int, h: Host) returns (g: Host)
    requires Exact(p, h)
    ensures g == Replay(h, Forward(p, e, code).1)
    ensures ExactBut(Forward(p, e, code).0, g, LostByResync(p, e) - {code})
  {
    var lost := LostByResync(p, e);
    var a := Resync(p, e);
    var ha := ResyncLoses(p, e, h);
    var b := JoinCommand(a.0, e, code);
    var hb := JoinCommandLoses(a.0, e, code, ha, lost);
    var c := PressKey(b.0, e.mac, code);
    ReplayAppend(h, a.1, b.1 + c.1);
    ReplayAppend(ha, b.1, c.1);
    ReplayOne(hb, Key(code, true));
    g := Feed(hb, Key(code, true));
  }

  lemma NothingLost(p: Policy, h: Host, lost: set<int>)
    requires ExactBut(p, h, lost)
    ensures Exact(p, h) <==> lost == {}
  {
    if x: int :| x in lost { assert x !in h.keys; }
  }

  lemma ForwardExactIff(p: Policy, e: Press, h: Host)
    requires Exact(p, h) && Forwards(p, e)
    ensures var f := Forward(p, e, CodeOf(p, e.mapped, e.mac).value);
      Exact(f.0, Replay(h, f.1)) <==> !Breaks(p, KeyDown(e))
  {
    var code := CodeOf(p, e.mapped, e.mac).value;
    var g := ForwardLoses(p, e, code, h);
    NothingLost(Forward(p, e, code).0, g, LostByResync(p, e) - {code});
  }

  // ----- The other events ---------------------------------------------------

  lemma KeyUpExactIff(p: Policy, mapped: Option<int>, mac: Option<int>, commandHeld: bool, h: Host)
    requires Exact(p, h)
    ensures var r := OnKeyUp(p, mapped, mac, commandHeld);
      Exact(r.0, Replay(h, r.1.sends)) <==> !DropsCtrl(p, KeyUp(mapped, mac, commandHeld))
  {
    var code := CodeOf(p, mapped, mac);
    if code.Some? && code.value in p.heldKeys {
      var r := OnKeyUp(p, mapped, mac, commandHeld);
      var g := h.(keys := h.keys - {code.value}
                          - (if code.value in p.chord && r.0.chord == {} then {LEFT_CTRL} else {}));
      ReplayOne(h, Key(code.value, false));
      ReplayTwo(h, Key(code.value, false), Key(LEFT_CTRL, false));
      assert [Key(code.value, false)] + [Key(LEFT_CTRL, false)] == [Key(code.value, false), Key(LEFT_CTRL, false)];
      assert Replay(h, r.1.sends) == g;
      var lost := if DropsCtrl(p, KeyUp(mapped, mac, commandHeld)) then {LEFT_CTRL} else {};
      assert p.chord == {code.value} <==> code.value in p.chord && r.0.chord == {};
      NothingLost(r.0, g, lost);
    }
  }

  lemma ModifierExactIff(p: Policy, code: int, pressed: bool, h: Host)
    requires Exact(p, h)
    ensures var r := OnModifier(p, code, pressed);
      Exact(r.0, Replay(h, r.1.sends)) <==> !DropsCtrl(p, Modifier(code, pressed))
  {
    ReplayOne(h, Key(code, pressed));
    if DropsCtrl(p, Modifier(code, pressed)) {
      assert LEFT_CTRL in OnModifier(p, code, pressed).0.heldKeys + ChordCtrl(OnModifier(p, code, pressed).0);
    }
  }

  lemma CapsExactIff(p: Policy, on: bool, h: Host)
    requires Exact(p, h)
    ensures Exact(SyncCaps(p, on).0, Replay(h, SyncCaps(p, on).1)) <==> !TapsWhileHeld(p, Some(on))
  {
    var g := SyncCapsEffect(p, Some(on), h);
    if TapsWhileHeld(p, Some(on)) { assert CAPS_LOCK in SyncCaps(p, on).0.heldKeys && CAPS_LOCK !in g.keys; }
  }

  lemma ClickLoses(p: Policy, code: int, withCommand: bool, modifiersDown: Option<set<int>>, h: Host)
    returns (g: Host)
    requires Exact(p, h)
    ensures var r := Click(p, code, withCommand, modifiersDown);
      && g == Replay(h, r.1)
      && ExactBut(r.0, g, if Shared(p) && !ReportsCtrlUp(modifiersDown) then {LEFT_CTRL} else {})
  {
    var lost := if Shared(p) then {LEFT_CTRL} else {};
    var ha, hb, hc := ClickEffect(p, code, withCommand, modifiersDown, h);
    var a := ReleaseChord(p).0;
    var ga := ChordReleaseLoses(p, h);
    var gb := RecordLoses(a, modifiersDown, ha, lost);
    var b := ResyncModifiers(a, modifiersDown).0;
    var gc := ResyncCommandEffect(b, withCommand, hb);
    g := Feed(gc, Button(code, true));
  }

  /** From any state in which the host holds down exactly what the client does,
      one event leaves it so if and only if it is none of the breaking ones. */
  lemma ExactIffNotBreaking(p: Policy, e: Event, h: Host)
    requires Exact(p, h)
    ensures Exact(Apply(p, e).0, Replay(h, Apply(p, e).1.sends)) <==> !Breaks(p, e)
  {
    match e
    case KeyDown(press) => if Forwards(p, press) { ForwardExactIff(p, press, h); }
    case KeyUp(mapped, mac, commandHeld) => KeyUpExactIff(p, mapped, mac, commandHeld, h);
    case Modifier(code, pressed) => ModifierExactIff(p, code, pressed, h);
    case CapsLockChanged(on) => CapsExactIff(p, on, h);
    case ButtonEdge(button, down, onVideo, withCommand, modifiersDown) =>
      if button.Some? {
        if down && onVideo {
          var g := ClickLoses(p, button.value, withCommand, modifiersDown, h);
          NothingLost(Click(p, button.value, withCommand, modifiersDown).0, g,
                      if Shared(p) && !ReportsCtrlUp(modifiersDown) then {LEFT_CTRL} else {});
        }
        ReplayOne(h, Button(button.value, false));
      }
    case ReleaseAll => ReleaseAllEmpties(p, h);
  }

  // ----- Runs ---------------------------------------------------------------

  /** The host holds exactly what the client does, now and after every event. */
  ghost predicate ExactThroughout(p: Policy, events: seq<Event>, h: Host)
    decreases |events|
  {
    Exact(p, h) &&
    (events == [] ||
     ExactThroughout(Apply(p, events[0]).0, events[1..], Replay(h, Apply(p, events[0]).1.sends)))
  }

  ghost predicate NoneBreaks(p: Policy, events: seq<Event>)
    decreases |events|
  {
    events == [] || (!Breaks(p, events[0]) && NoneBreaks(Apply(p, events[0]).0, events[1..]))
  }

  /** A run stays exact throughout if and only if none of its events breaks. */
  lemma {:induction false} ExactThroughoutIff(p: Policy, events: seq<Event>, h: Host)
    requires Exact(p, h)
    ensures ExactThroughout(p, events, h) <==> NoneBreaks(p, events)
    decreases |events|
  {
    if events != [] {
      var r := Apply(p, events[0]);
      ExactIffNotBreaking(p, events[0], h);
      if Exact(r.0, Replay(h, r.1.sends)) { ExactThroughoutIff(r.0, events[1..], Replay(h, r.1.sends)); }
    }
  }

  /** And then the host ends up holding exactly what the client does. */
  lemma {:induction false} ExactOverRuns(p: Policy, events: seq<Event>, h: Host)
    requires Exact(p, h) && NoneBreaks(p, events)
    ensures Exact(Run(p, events), Replay(h, Sent(p, events)))
    decreases |events|
  {
    if events != [] {
      var r := Apply(p, events[0]);
      ExactIffNotBreaking(p, events[0], h);
      ReplayAppend(h, r.1.sends, Sent(r.0, events[1..]));
      ExactOverRuns(r.0, events[1..], Replay(h, r.1.sends));
    }
  }

  // ----- How Ctrl comes to be shared ----------------------------------------

  /** The press leaves the host's Ctrl down for a chord. */
  predicate Chords(p: Policy, e: Press) {
    IsChord(e) && (p.chord != {} ||
      (if e.modifiersDown.Some? then e.modifiersDown.value else p.heldKeys) * CONTROLS == {})
  }

  /** A press that makes left Ctrl a chord's and held at once: a chord whose key is
      left Ctrl, or one whose record reports left Ctrl down while a chord holds it. */
  predicate SharesCtrl(p: Policy, e: Event) {
    && e.KeyDown? && Forwards(p, e.press) && Chords(p, e.press)
    && (CodeOf(p, e.press.mapped, e.press.mac).value == LEFT_CTRL
        || (p.chord != {} && e.press.modifiersDown.Some? && LEFT_CTRL in e.press.modifiersDown.value))
  }

  lemma ForwardShares(p: Policy, e: Press)
    requires !Shared(p) && Forwards(p, e)
    ensures Shared(Forward(p, e, CodeOf(p, e.mapped, e.mac).value).0) <==> SharesCtrl(p, KeyDown(e))
  {}

  lemma SharedIff(p: Policy, e: Event)
    requires !Shared(p)
    ensures Shared(Apply(p, e).0) <==> SharesCtrl(p, e)
  {
    if e.KeyDown? && Forwards(p, e.press) { ForwardShares(p, e.press); }
  }

  ghost predicate NeverShares(p: Policy, events: seq<Event>)
    decreases |events|
  {
    events == [] ||
    (!SharesCtrl(p, events[0]) && !DropsCapsLock(p, events[0]) && NeverShares(Apply(p, events[0]).0, events[1..]))
  }

  /** So a run is exact throughout when no chord key is left Ctrl, no press reports
      left Ctrl down while a chord holds it, and Caps Lock is never tapped while
      held as a key. */
  lemma {:induction false} ExactUnlessShared(p: Policy, events: seq<Event>, h: Host)
    requires Exact(p, h) && !Shared(p) && NeverShares(p, events)
    ensures ExactThroughout(p, events, h)
    decreases |events|
  {
    if events != [] {
      var r := Apply(p, events[0]);
      ExactIffNotBreaking(p, events[0], h);
      SharedIff(p, events[0]);
      ExactUnlessShared(r.0, events[1..], Replay(h, r.1.sends));
    }
  }

  /** A chord press of `code`, which is the key `mac`, with this modifier record. */
  function ChordPress(code: int, mac: int, down: set<int>): Event {
    KeyDown(Press(Some(code), Some(mac), false, true, false, true, Some(down), None))
  }

  function Release(code: int, mac: int): Event {
    KeyUp(Some(code), Some(mac), true)
  }

  /** Two chord keys, the second reporting left Ctrl down, then both released. */
  function LostCtrl(): seq<Event> {
    [ChordPress(30, 0, {}), ChordPress(31, 1, {LEFT_CTRL}), Release(30, 0), Release(31, 1)]
  }

  lemma ChordPressGives(p: Policy, code: int, mac: int, down: set<int>)
    requires mac !in p.pressedAs && down <= PLAIN && p.heldKeys !! COMMANDS && p.heldKeys * PLAIN == {}
    requires p.chord != {} || down == {}
    ensures var q := Apply(p, ChordPress(code, mac, down)).0;
      q == p.(heldKeys := p.heldKeys + down + {code}, chord := p.chord + {code},
              pressedAs := p.pressedAs[mac := code])
  {
    var e := ChordPress(code, mac, down).press;
    var a := Resync(p, e).0;
    assert a == p.(heldKeys := p.heldKeys + down);
    assert JoinCommand(a, e, code).0 == a.(chord := p.chord + {code});
  }

  /** One event of a run that has not broken yet. */
  lemma RunOne(p: Policy, e: Event, rest: seq<Event>, h: Host) returns (g: Host)
    requires Exact(p, h) && !Breaks(p, e)
    ensures Exact(Apply(p, e).0, g) && Run(p, [e] + rest) == Run(Apply(p, e).0, rest)
    ensures Replay(h, Sent(p, [e] + rest)) == Replay(g, Sent(Apply(p, e).0, rest))
  {
    var r := Apply(p, e);
    g := Replay(h, r.1.sends);
    ExactIffNotBreaking(p, e, h);
    assert ([e] + rest)[1..] == rest;
    ReplayAppend(h, r.1.sends, Sent(r.0, rest));
  }

  lemma LastReleaseTakesCtrl(p: Policy, h: Host)
    requires Exact(p, h) && p.heldKeys == {LEFT_CTRL, 31} && p.chord == {31} && p.pressedAs == map[1 := 31]
    ensures var last := [Release(31, 1)];
      && Run(p, last).heldKeys == {LEFT_CTRL} && Run(p, last).chord == {}
      && Replay(h, Sent(p, last)).keys == {}
  {
    var last := [Release(31, 1)];
    assert last[1..] == [];
    assert Sent(p, last) == [Key(31, false), Key(LEFT_CTRL, false)];
    ReplayTwo(h, Key(31, false), Key(LEFT_CTRL, false));
  }

  lemma ChordPressRuns(p: Policy, code: int, mac: int, down: set<int>, rest: seq<Event>, h: Host)
    returns (q: Policy, g: Host)
    requires mac !in p.pressedAs && down <= PLAIN && p.heldKeys !! COMMANDS && p.heldKeys * PLAIN == {}
    requires (p.chord != {} || down == {}) && Exact(p, h)
    ensures q == p.(heldKeys := p.heldKeys + down + {code}, chord := p.chord + {code},
                    pressedAs := p.pressedAs[mac := code])
    ensures Exact(q, g)
    ensures Run(p, [ChordPress(code, mac, down)] + rest) == Run(q, rest)
    ensures Replay(h, Sent(p, [ChordPress(code, mac, down)] + rest)) == Replay(g, Sent(q, rest))
  {
    ChordPressGives(p, code, mac, down);
    q := Apply(p, ChordPress(code, mac, down)).0;
    assert !Shared(p);
    g := RunOne(p, ChordPress(code, mac, down), rest, h);
  }

  lemma SecondPressShares(p: Policy, rest: seq<Event>, h: Host) returns (q: Policy, g: Host)
    requires p.heldKeys == {30} && p.chord == {30} && p.pressedAs == map[0 := 30] && Exact(p, h)
    ensures q.heldKeys == {30, LEFT_CTRL, 31} && q.chord == {30, 31} && q.pressedAs == map[0 := 30, 1 := 31]
    ensures Exact(q, g) && Run(p, [ChordPress(31, 1, {LEFT_CTRL})] + rest) == Run(q, rest)
    ensures Replay(h, Sent(p, [ChordPress(31, 1, {LEFT_CTRL})] + rest)) == Replay(g, Sent(q, rest))
  {
    q, g := ChordPressRuns(p, 31, 1, {LEFT_CTRL}, rest, h);
  }

  /** After the presses Ctrl is shared, and the host is still exact. */
  lemma PressesShareCtrl(start: Policy, idle: Host, rest: seq<Event>) returns (p: Policy, h: Host)
    requires start.heldKeys == {} && start.chord == {} && start.pressedAs == map[] && Exact(start, idle)
    ensures p.heldKeys == {30, LEFT_CTRL, 31} && p.chord == {30, 31} && p.pressedAs == map[0 := 30, 1 := 31]
    ensures Exact(p, h)
    ensures var all := [ChordPress(30, 0, {})] + ([ChordPress(31, 1, {LEFT_CTRL})] + rest);
      Run(start, all) == Run(p, rest) && Replay(idle, Sent(start, all)) == Replay(h, Sent(p, rest))
  {
    p, h := ChordPressRuns(start, 30, 0, {}, [ChordPress(31, 1, {LEFT_CTRL})] + rest, idle);
    p, h := SecondPressShares(p, rest, h);
  }

  lemma ReleasesTakeCtrl(p: Policy, h: Host)
    requires p.heldKeys == {30, LEFT_CTRL, 31} && p.chord == {30, 31} && p.pressedAs == map[0 := 30, 1 := 31]
    requires Exact(p, h)
    ensures var rest := [Release(30, 0)] + [Release(31, 1)];
      && Run(p, rest).heldKeys == {LEFT_CTRL} && Run(p, rest).chord == {}
      && Replay(h, Sent(p, rest)).keys == {}
  {
    var q := Apply(p, Release(30, 0)).0;
    assert q.heldKeys == {LEFT_CTRL, 31} && q.chord == {31} && q.pressedAs == map[1 := 31];
    var g := RunOne(p, Release(30, 0), [Release(31, 1)], h);
    LastReleaseTakesCtrl(q, g);
  }

  /** That run ends with left Ctrl held here and nothing down on the host. */
  lemma SharedCtrlIsLost()
    ensures Run(Fresh, LostCtrl()).heldKeys == {LEFT_CTRL} && Run(Fresh, LostCtrl()).chord == {}
    ensures Replay(Idle, Sent(Fresh, LostCtrl())).keys == {}
  {
    var rest := [Release(30, 0)] + [Release(31, 1)];
    var p, h := PressesShareCtrl(Fresh, Idle, rest);
    ReleasesTakeCtrl(p, h);
    assert LostCtrl() == [ChordPress(30, 0, {})] + ([ChordPress(31, 1, {LEFT_CTRL})] + rest);
  }

  // ----- Releases match presses ---------------------------------------------

  /** The physical key `mac` is let go. */
  predicate LetsGo(e: Event, mac: int) {
    e.ReleaseAll? || (e.KeyUp? && e.mac == Some(mac))
  }

  predicate NeverLetGo(events: seq<Event>, mac: int) {
    forall i :: 0 <= i < |events| ==> !LetsGo(events[i], mac)
  }

  lemma {:induction false} CodeKeptOverRuns(p: Policy, events: seq<Event>, mac: int)
    requires mac in p.pressedAs && NeverLetGo(events, mac)
    ensures mac in Run(p, events).pressedAs && Run(p, events).pressedAs[mac] == p.pressedAs[mac]
    decreases |events|
  {
    if events != [] {
      CodeKeptOverRuns(Apply(p, events[0]).0, events[1..], mac);
    }
  }

  /** A key's release goes out as the code its press went out as, whatever
      happened in between and whatever the map says by then. */
  lemma ReleaseMatchesPress(p: Policy, e: Press, events: seq<Event>, mapped: Option<int>, commandHeld: bool)
    requires Forwards(p, e) && e.mac.Some? && NeverLetGo(events, e.mac.value)
    ensures var code := CodeOf(p, e.mapped, e.mac).value;
      var down := Apply(p, KeyDown(e));
      var later := Run(down.0, events);
      && |down.1.sends| > 0 && down.1.sends[|down.1.sends| - 1] == Key(code, true)
      && var up := OnKeyUp(later, mapped, e.mac, commandHeld).1;
      if code in later.heldKeys then |up.sends| > 0 && up.sends[0] == Key(code, false)
      else up.sends == []
  {
    CodeKeptOverRuns(Apply(p, KeyDown(e)).0, events, e.mac.value);
  }

  // ----- Caps Lock follows --------------------------------------------------

  /** The host's lock is as this capture drove it, and the key itself is up. */
  predicate LockFollows(p: Policy, h: Host) {
    h.caps == p.hostCapsLock && CAPS_LOCK !in h.keys && CAPS_LOCK !in p.heldKeys
  }

  /** The event would press Caps Lock as an ordinary key. */
  predicate PressesLock(p: Policy, e: Event) {
    || (e.KeyDown? && Forwards(p, e.press) && CodeOf(p, e.press.mapped, e.press.mac).value == CAPS_LOCK)
    || (e.Modifier? && e.pressed && e.code == CAPS_LOCK)
  }

  lemma ResyncLock(p: Policy, e: Press, h: Host) returns (g: Host)
    requires LockFollows(p, h)
    ensures g == Replay(h, Resync(p, e).1) && LockFollows(Resync(p, e).0, g)
    ensures Resync(p, e).0.pending == p.pending
    ensures e.capsLockOn.Some? ==> g.caps == e.capsLockOn.value
  {
    var a := if IsChord(e) then (p, []) else ReleaseChord(p);
    var ha := ReleaseChordEffect(p, h);
    if IsChord(e) { ha := h; }
    var b := SyncCapsIfKnown(a.0, e.capsLockOn);
    var hb := SyncCapsEffect(a.0, e.capsLockOn, ha);
    var c := ResyncModifiers(b.0, e.modifiersDown);
    g := ResyncModifiersEffect(b.0, e.modifiersDown, hb);
    ReplayAppend(h, a.1, b.1 + c.1);
    ReplayAppend(ha, b.1, c.1);
  }

  lemma JoinCommandLock(p: Policy, e: Press, code: int, h: Host) returns (g: Host)
    requires LockFollows(p, h) && p.pending <= COMMANDS
    ensures g == Replay(h, JoinCommand(p, e, code).1) && LockFollows(JoinCommand(p, e, code).0, g)
    ensures g.caps == h.caps
  {
    if IsChord(e) {
      var b := HoldBackCommand(p);
      g := HoldBackEffect(p, h);
      if b.0.chord == {} && b.0.heldKeys * CONTROLS == {} {
        ReplayAppend(h, b.1, [Key(LEFT_CTRL, true)]);
        ReplayOne(g, Key(LEFT_CTRL, true));
        g := Feed(g, Key(LEFT_CTRL, true));
      } else {
        assert b.1 + [] == b.1;
      }
    } else {
      g := ResyncCommandEffect(p, e.commandHeld, h);
    }
  }

  lemma ForwardLock(p: Policy, e: Press, code: int, h: Host)
    requires LockFollows(p, h) && p.pending <= COMMANDS && code != CAPS_LOCK
    ensures var f := Forward(p, e, code);
      var g := Replay(h, f.1);
      LockFollows(f.0, g) && (e.capsLockOn.Some? ==> g.caps == e.capsLockOn.value)
  {
    var a := Resync(p, e);
    var ha := ResyncLock(p, e, h);
    var b := JoinCommand(a.0, e, code);
    var hb := JoinCommandLock(a.0, e, code, ha);
    var c := PressKey(b.0, e.mac, code);
    ReplayAppend(h, a.1, b.1 + c.1);
    ReplayAppend(ha, b.1, c.1);
    ReplayOne(hb, Key(code, true));
  }

  lemma ClickLock(p: Policy, code: int, withCommand: bool, modifiersDown: Option<set<int>>, h: Host)
    requires LockFollows(p, h) && p.pending <= COMMANDS
    ensures var r := Click(p, code, withCommand, modifiersDown); LockFollows(r.0, Replay(h, r.1))
  {
    var ha, hb, hc := ClickEffect(p, code, withCommand, modifiersDown, h);
    var a := ReleaseChord(p).0;
    var b := ResyncModifiers(a, modifiersDown).0;
    var gb := ResyncModifiersEffect(a, modifiersDown, ha);
    var gc := ResyncCommandEffect(b, withCommand, hb);
  }

  lemma ReleaseAllLock(p: Policy, h: Host)
    requires LockFollows(p, h)
    ensures LockFollows(OnReleaseAll(p).0, Replay(h, OnReleaseAll(p).1))
  {
    var keys := KeyEdges(Sorted(p.heldKeys), false);
    var ctrl := ReleaseChord(p).1;
    var buttons := ButtonReleases(Sorted(p.heldButtons));
    ReplayKeys(h, p.heldKeys, false);
    var h1 := KeysAfter(h, p.heldKeys, false);
    var h2 := ReleaseChordEffect(p, h1);
    ReplayAppend(h, keys + ctrl, buttons);
    ReplayAppend(h, keys, ctrl);
    ReplayButtonReleases(h2, p.heldButtons);
  }

  lemma KeyUpLock(p: Policy, mapped: Option<int>, mac: Option<int>, commandHeld: bool, h: Host)
    requires LockFollows(p, h)
    ensures var r := OnKeyUp(p, mapped, mac, commandHeld); LockFollows(r.0, Replay(h, r.1.sends))
  {
    var code := CodeOf(p, mapped, mac);
    if code.Some? && code.value in p.heldKeys {
      ReplayOne(h, Key(code.value, false));
      ReplayTwo(h, Key(code.value, false), Key(LEFT_CTRL, false));
      assert [Key(code.value, false)] + [Key(LEFT_CTRL, false)] == [Key(code.value, false), Key(LEFT_CTRL, false)];
    }
  }

  /** The host's Caps Lock follows the Mac's: short of the lock itself being
      pressed as a key, every event leaves the host's lock as this capture drove
      it, and a forwarded press or lock change brings it to the reported state. */
  lemma CapsLockFollows(p: Policy, e: Event, h: Host)
    requires LockFollows(p, h) && p.pending <= COMMANDS && !PressesLock(p, e)
    ensures var r := Apply(p, e);
      var g := Replay(h, r.1.sends);
      && LockFollows(r.0, g)
      && (e.CapsLockChanged? ==> g.caps == e.on)
      && (e.KeyDown? && Forwards(p, e.press) && e.press.capsLockOn.Some? ==> g.caps == e.press.capsLockOn.value)
  {
    match e
    case KeyDown(press) => if Forwards(p, press) { ForwardLock(p, press, CodeOf(p, press.mapped, press.mac).value, h); }
    case KeyUp(mapped, mac, commandHeld) => KeyUpLock(p, mapped, mac, commandHeld, h);
    case Modifier(code, pressed) => ReplayOne(h, Key(code, pressed));
    case CapsLockChanged(on) => var g := SyncCapsEffect(p, Some(on), h);
    case ButtonEdge(button, down, onVideo, withCommand, modifiersDown) =>
      if button.Some? {
        if down { ClickLock(p, button.value, withCommand, modifiersDown, h); }
        ReplayOne(h, Button(button.value, false));
      }
    case ReleaseAll => ReleaseAllLock(p, h);
  }

  // ----- No lone Super ------------------------------------------------------

  /** A command key goes down on the host only ahead of the key or button it
      joins, in the same batch of edges: no lone Super tap leaks out. */
  lemma SuperOnlyInAChord(p: Policy, e: Event, i: nat)
    requires i < |Apply(p, e).1.sends|
    requires Apply(p, e).1.sends[i].Key? && Apply(p, e).1.sends[i].pressed && Apply(p, e).1.sends[i].code in COMMANDS
    ensures e.KeyDown? || e.ButtonEdge?
    ensures var sends := Apply(p, e).1.sends;
      var last := sends[|sends| - 1];
      && last.pressed
      && if e.KeyDown? then last == Key(CodeOf(p, e.press.mapped, e.press.mac).value, true)
         else e.button.Some? && last == Button(e.button.value, true)
  {}
}
