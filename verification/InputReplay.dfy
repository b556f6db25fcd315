/** The forwarded edges replayed on an abstract host: nothing is ever stuck down
    there, and when it differs from what the client believes is held. */
module InputReplay {
  import opened Wrappers
  import opened IntSets
  import opened InputForwarding

  /** What a host does with an edge: keys and buttons go down and up, and a Caps
      Lock press flips the lock. */
  datatype Host = Host(keys: set<int>, buttons: set<int>, caps: bool)

  const Idle := Host({}, {}, false)

  function Feed(h: Host, e: Edge): Host {
    match e
    case Key(code, true) =>
      h.(keys := h.keys + {code}, caps := if code == CAPS_LOCK && code !in h.keys then !h.caps else h.caps)
    case Key(code, false) => h.(keys := h.keys - {code})
    case Button(code, true) => h.(buttons := h.buttons + {code})
    case Button(code, false) => h.(buttons := h.buttons - {code})
  }

  function Replay(h: Host, edges: seq<Edge>): Host
    decreases |edges|
  {
    if edges == [] then h else Replay(Feed(h, edges[0]), edges[1..])
  }

  lemma {:induction false} ReplayAppend(h: Host, a: seq<Edge>, b: seq<Edge>)
    ensures Replay(h, a + b) == Replay(Replay(h, a), b)
    decreases |a|
  {
    if a == [] {
      assert a + b == b;
    } else {
      assert (a + b)[1..] == a[1..] + b;
      ReplayAppend(Feed(h, a[0]), a[1..], b);
    }
  }

  // ----- Batches of edges ---------------------------------------------------

  function KeysAfter(h: Host, codes: set<int>, pressed: bool): Host {
    h.(keys := if pressed then h.keys + codes else h.keys - codes)
  }

  /** Pressing or releasing a sorted set moves exactly that set. */
  lemma {:induction false} ReplayKeys(h: Host, s: set<int>, pressed: bool)
    requires CAPS_LOCK !in s || !pressed
    ensures Replay(h, KeyEdges(Sorted(s), pressed)) == KeysAfter(h, s, pressed)
    decreases |s|
  {
    if s != {} {
      var first := Oldest(s);
      var rest := s - {first};
      var edges := KeyEdges(Sorted(s), pressed);
      assert edges[1..] == KeyEdges(Sorted(rest), pressed);
      ReplayKeys(Feed(h, edges[0]), rest, pressed);
      assert {first} + rest == s;
      assert h.keys + {first} + rest == h.keys + s && h.keys - {first} - rest == h.keys - s;
    }
  }

  lemma {:induction false} ReplayButtonReleases(h: Host, s: set<int>)
    ensures Replay(h, ButtonReleases(Sorted(s))) == h.(buttons := h.buttons - s)
    decreases |s|
  {
    if s != {} {
      var first := Oldest(s);
      var rest := s - {first};
      var edges := ButtonReleases(Sorted(s));
      assert edges[1..] == ButtonReleases(Sorted(rest));
      ReplayButtonReleases(Feed(h, edges[0]), rest);
      assert h.buttons - {first} - rest == h.buttons - s;
    }
  }

  lemma ReplayOne(h: Host, e: Edge)
    ensures Replay(h, [e]) == Feed(h, e)
  {
    assert Replay(Feed(h, e), []) == Feed(h, e);
  }

  lemma ReplayTwo(h: Host, e: Edge, f: Edge)
    ensures Replay(h, [e, f]) == Feed(Feed(h, e), f)
  {
    ReplayOne(Feed(h, e), f);
    assert [e, f][1..] == [f];
  }

  // ----- What each step does to the host ------------------------------------

  /** The Ctrl a chord holds down on the host. */
  function ChordCtrl(p: Policy): set<int> {
    if p.chord == {} then {} else {LEFT_CTRL}
  }

  lemma ReleaseChordEffect(p: Policy, h: Host) returns (g: Host)
    ensures g == Replay(h, ReleaseChord(p).1) && g == h.(keys := h.keys - ChordCtrl(p))
  {
    g := Replay(h, ReleaseChord(p).1);
    if p.chord != {} { ReplayOne(h, Key(LEFT_CTRL, false)); }
  }

  lemma SyncCapsEffect(p: Policy, on: Option<bool>, h: Host) returns (g: Host)
    ensures g == Replay(h, SyncCapsIfKnown(p, on).1) && g.buttons == h.buttons
    ensures g.keys == if on.Some? && on.value != p.hostCapsLock then h.keys - {CAPS_LOCK} else h.keys
    ensures CAPS_LOCK !in h.keys && h.caps == p.hostCapsLock ==> g.caps == SyncCapsIfKnown(p, on).0.hostCapsLock
  {
    g := Replay(h, SyncCapsIfKnown(p, on).1);
    if on.Some? && on.value != p.hostCapsLock {
      ReplayTwo(h, Key(CAPS_LOCK, true), Key(CAPS_LOCK, false));
      assert h.keys + {CAPS_LOCK} - {CAPS_LOCK} == h.keys - {CAPS_LOCK};
    }
  }

  lemma ResyncModifiersEffect(p: Policy, reported: Option<set<int>>, h: Host) returns (g: Host)
    ensures g == Replay(h, ResyncModifiers(p, reported).1) && g.buttons == h.buttons && g.caps == h.caps
    ensures g.keys == if reported.None? then h.keys
                      else h.keys - (p.heldKeys * PLAIN - reported.value * PLAIN)
                           + (reported.value * PLAIN - p.heldKeys * PLAIN)
  {
    g := Replay(h, ResyncModifiers(p, reported).1);
    if reported.Some? {
      var stale := p.heldKeys * PLAIN - reported.value * PLAIN;
      var missing := reported.value * PLAIN - p.heldKeys * PLAIN;
      ReplayAppend(h, KeyEdges(Sorted(stale), false), KeyEdges(Sorted(missing), true));
      ReplayKeys(h, stale, false);
      ReplayKeys(KeysAfter(h, stale, false), missing, true);
    }
  }

  lemma HoldBackEffect(p: Policy, h: Host) returns (g: Host)
    ensures g == Replay(h, HoldBackCommand(p).1) && g == h.(keys := h.keys - p.heldKeys * COMMANDS)
  {
    g := Replay(h, HoldBackCommand(p).1);
    ReplayKeys(h, p.heldKeys * COMMANDS, false);
  }

  lemma ResyncCommandEffect(p: Policy, held: bool, h: Host) returns (g: Host)
    requires CAPS_LOCK !in p.pending
    ensures g == Replay(h, ResyncCommand(p, held).1) && g.buttons == h.buttons && g.caps == h.caps
    ensures g.keys == if held then h.keys + p.pending else h.keys - p.heldKeys * COMMANDS
  {
    g := Replay(h, ResyncCommand(p, held).1);
    if held { ReplayKeys(h, p.pending, true); } else { ReplayKeys(h, p.heldKeys * COMMANDS, false); }
  }

  // ----- Nothing stuck ------------------------------------------------------

  /** What the client may still have to release: every key down on the host is
      one it holds, or the chord's Ctrl, and the buttons are the ones it holds. */
  predicate Contained(p: Policy, h: Host) {
    && h.keys <= p.heldKeys + ChordCtrl(p) && h.buttons == p.heldButtons
    && p.pending <= COMMANDS
  }

  lemma ResyncContained(p: Policy, e: Press, h: Host) returns (g: Host)
    requires Contained(p, h)
    ensures g == Replay(h, Resync(p, e).1) && Contained(Resync(p, e).0, g)
  {
    var a := if IsChord(e) then (p, []) else ReleaseChord(p);
    var ha := ReleaseChordEffect(p, h);
    if IsChord(e) { ha := h; }
    var b := SyncCapsIfKnown(a.0, e.capsLockOn);
    var hb := SyncCapsEffect(a.0, e.capsLockOn, ha);
    var c := ResyncModifiers(b.0, e.modifiersDown);
    g := ResyncModifiersEffect(b.0, e.modifiersDown, hb);
    ReplayAppend(h, a.1, b.1 + c.1);
    ReplayAppend(ha, b.1, c.1);
  }

  lemma JoinCommandContained(p: Policy, e: Press, code: int, h: Host) returns (g: Host)
    requires Contained(p, h) && (IsChord(e) || p.chord == {})
    ensures g == Replay(h, JoinCommand(p, e, code).1) && Contained(JoinCommand(p, e, code).0, g)
  {
    if IsChord(e) {
      var b := HoldBackCommand(p);
      g := HoldBackEffect(p, h);
      if b.0.chord == {} && b.0.heldKeys * CONTROLS == {} {
        ReplayAppend(h, b.1, [Key(LEFT_CTRL, true)]);
        ReplayOne(g, Key(LEFT_CTRL, true));
        g := Feed(g, Key(LEFT_CTRL, true));
      } else {
        assert b.1 + [] == b.1;
      }
    } else {
      g := ResyncCommandEffect(p, e.commandHeld, h);
    }
  }

  lemma ForwardContained(p: Policy, e: Press, code: int, h: Host)
    requires Contained(p, h)
    ensures Contained(Forward(p, e, code).0, Replay(h, Forward(p, e, code).1))
  {
    var a := Resync(p, e);
    var ha := ResyncContained(p, e, h);
    var b := JoinCommand(a.0, e, code);
    var hb := JoinCommandContained(a.0, e, code, ha);
    var c := PressKey(b.0, e.mac, code);
    ReplayAppend(h, a.1, b.1 + c.1);
    ReplayAppend(ha, b.1, c.1);
    ReplayOne(hb, Key(code, true));
  }

  lemma KeyUpContained(p: Policy, mapped: Option<int>, mac: Option<int>, commandHeld: bool, h: Host)
    requires Contained(p, h)
    ensures var r := OnKeyUp(p, mapped, mac, commandHeld); Contained(r.0, Replay(h, r.1.sends))
  {
    var code := CodeOf(p, mapped, mac);
    if code.Some? && code.value in p.heldKeys {
      ReplayOne(h, Key(code.value, false));
      ReplayTwo(h, Key(code.value, false), Key(LEFT_CTRL, false));
      assert [Key(code.value, false)] + [Key(LEFT_CTRL, false)] == [Key(code.value, false), Key(LEFT_CTRL, false)];
    }
  }

  lemma ClickEffect(p: Policy, code: int, withCommand: bool, modifiersDown: Option<set<int>>, h: Host)
    returns (ha: Host, hb: Host, hc: Host)
    requires p.pending <= COMMANDS
    ensures ha == Replay(h, ReleaseChord(p).1) && ha == h.(keys := h.keys - ChordCtrl(p))
    ensures var a := ReleaseChord(p).0; var b := ResyncModifiers(a, modifiersDown).0;
      && hb == Replay(ha, ResyncModifiers(a, modifiersDown).1)
      && hc == Replay(hb, ResyncCommand(b, withCommand).1)
      && Replay(h, Click(p, code, withCommand, modifiersDown).1) == Feed(hc, Button(code, true))
  {
    var a := ReleaseChord(p);
    ha := ReleaseChordEffect(p, h);
    var b := ResyncModifiers(a.0, modifiersDown);
    hb := Replay(ha, b.1);
    var c := ResyncCommand(b.0, withCommand);
    hc := Replay(hb, c.1);
    ReplayAppend(h, a.1, b.1 + (c.1 + [Button(code, true)]));
    ReplayAppend(ha, b.1, c.1 + [Button(code, true)]);
    ReplayAppend(hb, c.1, [Button(code, true)]);
    ReplayOne(hc, Button(code, true));
  }

  lemma ClickContained(p: Policy, code: int, withCommand: bool, modifiersDown: Option<set<int>>, h: Host)
    requires Contained(p, h)
    ensures var r := Click(p, code, withCommand, modifiersDown); Contained(r.0, Replay(h, r.1))
  {
    var ha, hb, hc := ClickEffect(p, code, withCommand, modifiersDown, h);
    var a := ReleaseChord(p).0;
    var b := ResyncModifiers(a, modifiersDown).0;
    var gb := ResyncModifiersEffect(a, modifiersDown, ha);
    var gc := ResyncCommandEffect(b, withCommand, hb);
  }

  /** Releasing everything empties the host, whatever happened before. */
  lemma ReleaseAllEmpties(p: Policy, h: Host)
    requires Contained(p, h)
    ensures Replay(h, OnReleaseAll(p).1).keys == {} && Replay(h, OnReleaseAll(p).1).buttons == {}
    ensures Contained(OnReleaseAll(p).0, Replay(h, OnReleaseAll(p).1))
  {
    var keys := KeyEdges(Sorted(p.heldKeys), false);
    var ctrl := ReleaseChord(p).1;
    var buttons := ButtonReleases(Sorted(p.heldButtons));
    ReplayKeys(h, p.heldKeys, false);
    var h1 := KeysAfter(h, p.heldKeys, false);
    var h2 := ReleaseChordEffect(p, h1);
    ReplayAppend(h, keys + ctrl, buttons);
    ReplayAppend(h, keys, ctrl);
    ReplayButtonReleases(h2, p.heldButtons);
  }

  lemma ApplyContained(p: Policy, e: Event, h: Host)
    requires Contained(p, h)
    ensures Contained(Apply(p, e).0, Replay(h, Apply(p, e).1.sends))
  {
    match e
    case KeyDown(press) => if Forwards(p, press) { ForwardContained(p, press, CodeOf(p, press.mapped, press.mac).value, h); }
    case KeyUp(mapped, mac, commandHeld) => KeyUpContained(p, mapped, mac, commandHeld, h);
    case Modifier(code, pressed) =>
    case CapsLockChanged(on) => var g := SyncCapsEffect(p, Some(on), h);
    case ButtonEdge(button, down, onVideo, withCommand, modifiersDown) =>
      if button.Some? {
        if down { ClickContained(p, button.value, withCommand, modifiersDown, h); }
        ReplayOne(h, Button(button.value, false));
      }
    case ReleaseAll => ReleaseAllEmpties(p, h);
  }

  // ----- Runs ---------------------------------------------------------------

  ghost function Run(p: Policy, events: seq<Event>): Policy
    decreases |events|
  {
    if events == [] then p else Run(Apply(p, events[0]).0, events[1..])
  }

  ghost function Sent(p: Policy, events: seq<Event>): seq<Edge>
    decreases |events|
  {
    if events == [] then []
    else Apply(p, events[0]).1.sends + Sent(Apply(p, events[0]).0, events[1..])
  }

  lemma {:induction false} RunContained(p: Policy, events: seq<Event>, h: Host)
    requires Contained(p, h)
    ensures Contained(Run(p, events), Replay(h, Sent(p, events)))
    decreases |events|
  {
    if events != [] {
      var r := Apply(p, events[0]);
      ApplyContained(p, events[0], h);
      ReplayAppend(h, r.1.sends, Sent(r.0, events[1..]));
      RunContained(r.0, events[1..], Replay(h, r.1.sends));
    }
  }

  /** No stuck input: after any events whatever, every key down on the host is
      held here or is the chord's Ctrl, the buttons down are the ones held, and
      releasing everything leaves the host with nothing down. */
  lemma NoStuckInput(events: seq<Event>)
    ensures var p := Run(Fresh, events);
      var h := Replay(Idle, Sent(Fresh, events));
      var after := Replay(h, OnReleaseAll(p).1);
      && h.keys <= p.heldKeys + ChordCtrl(p) && h.buttons == p.heldButtons
      && after.keys == {} && after.buttons == {}
  {
    RunContained(Fresh, events, Idle);
    ReleaseAllEmpties(Run(Fresh, events), Replay(Idle, Sent(Fresh, events)));
  }
}
