/** Which wire edges one key, modifier or button event produces. */
module InputForwarding {
  import opened Wrappers
  import opened IntSets

  const LEFT_CTRL: int := 29
  const CAPS_LOCK: int := 58
  const COMMANDS: set<int> := {125, 126}
  const CONTROLS: set<int> := {29, 97}
  const PLAIN: set<int> := {42, 54, 29, 97, 56, 100}

  datatype Edge = Key(code: int, pressed: bool) | Button(code: int, pressed: bool)

  datatype Verdict = Verdict(sends: seq<Edge>, consumed: bool)

  const PassThrough := Verdict([], false)
  const Swallow := Verdict([], true)

  /** `chord` holds the keys that pressed the host's Ctrl for a command chord. */
  datatype Policy = Policy(
    heldKeys: set<int>, heldButtons: set<int>, pending: set<int>,
    pressedAs: map<int, int>, chord: set<int>, hostCapsLock: bool)

  const Fresh := Policy({}, {}, {}, map[], {}, false)

  type Step = (Policy, seq<Edge>)

  // ----- Resync helpers -----------------------------------------------------

  function KeyEdges(codes: seq<int>, pressed: bool): seq<Edge> {
    seq(|codes|, i requires 0 <= i < |codes| => Key(codes[i], pressed))
  }

  function ButtonReleases(codes: seq<int>): seq<Edge> {
    seq(|codes|, i requires 0 <= i < |codes| => Button(codes[i], false))
  }

  function ReleaseChord(p: Policy): Step {
    if p.chord == {} then (p, []) else (p.(chord := {}), [Key(LEFT_CTRL, false)])
  }

  function SyncCaps(p: Policy, on: bool): Step {
    if on == p.hostCapsLock then (p, [])
    else (p.(hostCapsLock := on), [Key(CAPS_LOCK, true), Key(CAPS_LOCK, false)])
  }

  function SyncCapsIfKnown(p: Policy, on: Option<bool>): Step {
    if on.Some? then SyncCaps(p, on.value) else (p, [])
  }

  ghost function ResyncModifiers(p: Policy, reported: Option<set<int>>): Step {
    if reported.None? then (p, [])
    else
      var down := reported.value * PLAIN;
      var held := p.heldKeys * PLAIN;
      (p.(heldKeys := p.heldKeys - (held - down) + (down - held)),
       KeyEdges(Sorted(held - down), false) + KeyEdges(Sorted(down - held), true))
  }

  ghost function HoldBackCommand(p: Policy): Step {
    var forwarded := p.heldKeys * COMMANDS;
    (p.(heldKeys := p.heldKeys - forwarded, pending := p.pending + forwarded),
     KeyEdges(Sorted(forwarded), false))
  }

  ghost function ResyncCommand(p: Policy, held: bool): Step {
    var q := p.(pending := {});
    if held then (q.(heldKeys := p.heldKeys + p.pending), KeyEdges(Sorted(p.pending), true))
    else
      var stale := p.heldKeys * COMMANDS;
      (q.(heldKeys := p.heldKeys - stale), KeyEdges(Sorted(stale), false))
  }

  // ----- Events -------------------------------------------------------------

  datatype Press = Press(
    mapped: Option<int>, mac: Option<int>, isRepeat: bool, commandHeld: bool, isLocalShortcut: bool,
    typesLetter: bool, modifiersDown: Option<set<int>>, capsLockOn: Option<bool>)

  datatype Event =
    | KeyDown(press: Press)
    | KeyUp(mapped: Option<int>, mac: Option<int>, commandHeld: bool)
    | Modifier(code: int, pressed: bool)
    | CapsLockChanged(on: bool)
    | ButtonEdge(button: Option<int>, down: bool, onVideo: bool, withCommand: bool,
                 modifiersDown: Option<set<int>>)
    | ReleaseAll

  /** The code this physical key already went out as, or what the map says now. */
  function CodeOf(p: Policy, mapped: Option<int>, mac: Option<int>): Option<int> {
    if mac.Some? && mac.value in p.pressedAs then Some(p.pressedAs[mac.value]) else mapped
  }

  predicate IsChord(e: Press) {
    e.commandHeld && e.typesLetter
  }

  predicate Forwards(p: Policy, e: Press) {
    var code := CodeOf(p, e.mapped, e.mac);
    !(e.commandHeld && e.isLocalShortcut) && !e.isRepeat && code.Some?
  }

  function Then(a: Step, b: Step): Step {
    (b.0, a.1 + b.1)
  }

  /** Caps Lock and the plain modifiers, brought to the event's own record. */
  ghost function Resync(p: Policy, e: Press): Step {
    var a := if IsChord(e) then (p, []) else ReleaseChord(p);
    var b := SyncCapsIfKnown(a.0, e.capsLockOn);
    Then(a, Then(b, ResyncModifiers(b.0, e.modifiersDown)))
  }

  /** The command key's part: it becomes the host's Ctrl, or goes out as Super. */
  ghost function JoinCommand(p: Policy, e: Press, code: int): Step {
    if !IsChord(e) then ResyncCommand(p, e.commandHeld)
    else
      var b := HoldBackCommand(p);
      if b.0.chord == {} && b.0.heldKeys * CONTROLS != {} then b
      else (b.0.(chord := b.0.chord + {code}),
            b.1 + if b.0.chord == {} then [Key(LEFT_CTRL, true)] else [])
  }

  function PressKey(p: Policy, mac: Option<int>, code: int): Step {
    (p.(heldKeys := p.heldKeys + {code},
        pressedAs := if mac.Some? then p.pressedAs[mac.value := code] else p.pressedAs),
     [Key(code, true)])
  }

  ghost function Forward(p: Policy, e: Press, code: int): Step {
    var a := Resync(p, e);
    var b := JoinCommand(a.0, e, code);
    Then(a, Then(b, PressKey(b.0, e.mac, code)))
  }

  ghost function OnKeyDown(p: Policy, e: Press): (Policy, Verdict) {
    var code := CodeOf(p, e.mapped, e.mac);
    if e.isRepeat && code.Some? && code.value in p.heldKeys then (p, Swallow)
    else if e.commandHeld && e.isLocalShortcut then (p, PassThrough)
    else if e.isRepeat then (p, Swallow)
    else if code.None? then (p, PassThrough)
    else var f := Forward(p, e, code.value); (f.0, Verdict(f.1, true))
  }

  function ReleaseKey(p: Policy, code: int): Step {
    var chord := p.chord - {code};
    (p.(heldKeys := p.heldKeys - {code}, chord := chord),
     [Key(code, false)] + if code in p.chord && chord == {} then [Key(LEFT_CTRL, false)] else [])
  }

  function OnKeyUp(p: Policy, mapped: Option<int>, mac: Option<int>, commandHeld: bool): (Policy, Verdict) {
    var code := CodeOf(p, mapped, mac);
    var q := if mac.Some? then p.(pressedAs := p.pressedAs - {mac.value}) else p;
    if code.None? then (q, PassThrough)
    else if code.value in q.heldKeys then
      var r := ReleaseKey(q, code.value); (r.0, Verdict(r.1, true))
    else (q, if commandHeld then PassThrough else Swallow)
  }

  function OnModifier(p: Policy, code: int, pressed: bool): (Policy, Verdict) {
    if pressed then
      if code in COMMANDS then (if code in p.heldKeys then p else p.(pending := p.pending + {code}), Swallow)
      else if code == LEFT_CTRL && p.chord != {} then (p.(chord := {}, heldKeys := p.heldKeys + {code}), Swallow)
      else (p.(heldKeys := p.heldKeys + {code}), Verdict([Key(code, true)], true))
    else if code in p.pending then (p.(pending := p.pending - {code}), Swallow)
    else if code in p.heldKeys then
      (p.(heldKeys := p.heldKeys - {code}), Verdict([Key(code, false)], true))
    else (p, Swallow)
  }

  ghost function Click(p: Policy, code: int, withCommand: bool, modifiersDown: Option<set<int>>): Step {
    var a := ReleaseChord(p);
    var b := ResyncModifiers(a.0, modifiersDown);
    var c := ResyncCommand(b.0, withCommand);
    Then(a, Then(b, Then(c, (c.0.(heldButtons := c.0.heldButtons + {code}), [Button(code, true)]))))
  }

  ghost function OnButton(p: Policy, button: Option<int>, down: bool, onVideo: bool, withCommand: bool,
                    modifiersDown: Option<set<int>>): (Policy, Verdict) {
    if button.None? then (p, PassThrough)
    else if down then
      if !onVideo then (p, PassThrough)
      else var c := Click(p, button.value, withCommand, modifiersDown); (c.0, Verdict(c.1, true))
    else if button.value in p.heldButtons then
      (p.(heldButtons := p.heldButtons - {button.value}), Verdict([Button(button.value, false)], true))
    else (p, PassThrough)
  }

  ghost function OnReleaseAll(p: Policy): Step {
    var c := ReleaseChord(p);
    (c.0.(heldKeys := {}, heldButtons := {}, pending := {}, pressedAs := map[]),
     KeyEdges(Sorted(p.heldKeys), false) + c.1 + ButtonReleases(Sorted(p.heldButtons)))
  }

  ghost function Apply(p: Policy, e: Event): (Policy, Verdict) {
    match e
    case KeyDown(press) => OnKeyDown(p, press)
    case KeyUp(mapped, mac, commandHeld) => OnKeyUp(p, mapped, mac, commandHeld)
    case Modifier(code, pressed) => OnModifier(p, code, pressed)
    case CapsLockChanged(on) => var s := SyncCaps(p, on); (s.0, Verdict(s.1, true))
    case ButtonEdge(button, down, onVideo, withCommand, modifiersDown) =>
      OnButton(p, button, down, onVideo, withCommand, modifiersDown)
    case ReleaseAll => var s := OnReleaseAll(p); (s.0, Verdict(s.1, true))
  }
}
