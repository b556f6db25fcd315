/** The tracker as it runs: 4096 seen-slots in 64 words of 64 bits, updated in
    place, and every method tied to the set of slots the theorems are about. */
module SeqGapBitmap {
  import opened Wrappers
  import opened SerialArithmetic
  import opened SeqGapTracker

  const WORDS := 64

  // ----- Bits of a word -----------------------------------------------------

  predicate Bit(word: bv64, bit: bv8)
    requires bit < 64
  {
    word & (1 << bit) != 0
  }

  function SetIn(word: bv64, bit: bv8): bv64
    requires bit < 64
  {
    word | (1 << bit)
  }

  function ClearIn(word: bv64, bit: bv8): bv64
    requires bit < 64
  {
    word & !(1 << bit)
  }

  lemma SetOther(word: bv64, b: bv8, c: bv8)
    requires b < 64 && c < 64 && b != c
    ensures (word | (1 << b)) & (1 << c) == word & (1 << c)
  {}

  lemma SetOwn(word: bv64, b: bv8)
    requires b < 64
    ensures (word | (1 << b)) & (1 << b) != 0
  {}

  /** Setting a bit moves that bit and no other. */
  lemma SetMoves(word: bv64, b: bv8, c: bv8)
    requires b < 64 && c < 64
    ensures b != c ==> Bit(SetIn(word, b), c) == Bit(word, c)
    ensures Bit(SetIn(word, b), b)
  {
    SetOwn(word, b);
    if b != c { SetOther(word, b, c); }
  }

  lemma ClearOther(word: bv64, b: bv8, c: bv8)
    requires b < 64 && c < 64 && b != c
    ensures (word & !(1 << b)) & (1 << c) == word & (1 << c)
  {}

  /** So does clearing one. */
  lemma ClearMoves(word: bv64, b: bv8, c: bv8)
    requires b < 64 && c < 64
    ensures b != c ==> Bit(ClearIn(word, b), c) == Bit(word, c)
    ensures !Bit(ClearIn(word, b), b)
  {
    if b != c { ClearOther(word, b, c); }
  }

  // ----- The bitmap ---------------------------------------------------------

  /** The bit a slot has in its word. */
  function BitOf(slot: nat): (bit: bv8)
    ensures bit < 64 && bit as int == slot % 64
  {
    (slot % 64) as bv8
  }

  predicate SlotSet(words: seq<bv64>, slot: nat)
    requires |words| == WORDS && slot < WINDOW
  {
    Bit(words[slot / 64], BitOf(slot))
  }

  /** The slots a bitmap holds. */
  ghost function Slots(words: seq<bv64>): set<int>
    requires |words| == WORDS
  {
    set slot | 0 <= slot < WINDOW && SlotSet(words, slot)
  }

  function SetAt(words: seq<bv64>, slot: nat): seq<bv64>
    requires |words| == WORDS && slot < WINDOW
  {
    words[slot / 64 := SetIn(words[slot / 64], BitOf(slot))]
  }

  function ClearAt(words: seq<bv64>, slot: nat): seq<bv64>
    requires |words| == WORDS && slot < WINDOW
  {
    words[slot / 64 := ClearIn(words[slot / 64], BitOf(slot))]
  }

  lemma SlotsApart(s: nat, t: nat) returns (x: bv8, y: bv8)
    ensures x == BitOf(s) && y == BitOf(t)
    ensures s / 64 == t / 64 && s != t ==> x != y
  {
    x, y := BitOf(s), BitOf(t);
  }

  lemma SetSlotTells(words: seq<bv64>, slot: nat, s: nat)
    requires |words| == WORDS && slot < WINDOW && s < WINDOW
    ensures SlotSet(SetAt(words, slot), s) == (s == slot || SlotSet(words, s))
  {
    var x, y := SlotsApart(slot, s);
    SetMoves(words[slot / 64], x, y);
  }

  lemma ClearSlotTells(words: seq<bv64>, slot: nat, s: nat)
    requires |words| == WORDS && slot < WINDOW && s < WINDOW
    ensures SlotSet(ClearAt(words, slot), s) == (s != slot && SlotSet(words, s))
  {
    var x, y := SlotsApart(slot, s);
    ClearMoves(words[slot / 64], x, y);
  }

  lemma SetSlot(words: seq<bv64>, slot: nat)
    requires |words| == WORDS && slot < WINDOW
    ensures Slots(SetAt(words, slot)) == Slots(words) + {slot}
  {
    var after := SetAt(words, slot);
    forall s | 0 <= s < WINDOW
      ensures SlotSet(after, s) == (s == slot || SlotSet(words, s))
    {
      SetSlotTells(words, slot, s);
    }
  }

  lemma ClearSlot(words: seq<bv64>, slot: nat)
    requires |words| == WORDS && slot < WINDOW
    ensures Slots(ClearAt(words, slot)) == Slots(words) - {slot}
  {
    var after := ClearAt(words, slot);
    forall s | 0 <= s < WINDOW
      ensures SlotSet(after, s) == (s != slot && SlotSet(words, s))
    {
      ClearSlotTells(words, slot, s);
    }
  }

  // ----- The tracker --------------------------------------------------------

  lemma CursorStep(slots: set<int>, high: nat, i: nat)
    ensures ((high + i) % WRAP16 + 1) % WRAP16 == (high + i + 1) % WRAP16
    ensures Cleared(slots, high, i + 1) == Cleared(slots, high, i) - {Slot((high + i + 1) % WRAP16)}
  {}

  class GapTracker {
    var received: nat
    var duplicates: nat
    var gapsDetected: nat
    var lateFilled: nat
    var beyondWindow: nat
    var wrapEvents: nat
    var highest: Option<nat>
    var seen: array<bv64>
    var base: Option<nat>
    var advanceFromStart: nat

    ghost predicate Valid()
      reads this, seen
    {
      seen.Length == WORDS && (highest.Some? ==> highest.value < WRAP16)
    }

    ghost function State(): Tracker
      reads this, seen
      requires Valid()
    {
      Tracker(received, duplicates, gapsDetected, lateFilled, beyondWindow, wrapEvents,
              highest, Slots(seen[..]), base, advanceFromStart)
    }

    constructor ()
      ensures Valid() && fresh(seen) && State() == Fresh
    {
      received, duplicates, gapsDetected, lateFilled := 0, 0, 0, 0;
      beyondWindow, wrapEvents, advanceFromStart := 0, 0, 0;
      highest, base := None, None;
      seen := new bv64[WORDS](_ => 0);
      new;
    }

    method MarkSeen(number: nat)
      requires Valid()
      modifies seen
      ensures Valid() && Slots(seen[..]) == old(Slots(seen[..])) + {Slot(number)}
    {
      var index := Slot(number);
      SetSlot(seen[..], index);
      ghost var before := seen[..];
      seen[index / 64] := SetIn(seen[index / 64], BitOf(index));
      assert seen[..] == SetAt(before, index);
    }

    method Forget(number: nat)
      requires Valid()
      modifies seen
      ensures Valid() && Slots(seen[..]) == old(Slots(seen[..])) - {Slot(number)}
    {
      var index := Slot(number);
      ClearSlot(seen[..], index);
      ghost var before := seen[..];
      seen[index / 64] := ClearIn(seen[index / 64], BitOf(index));
      assert seen[..] == ClearAt(before, index);
    }

    method IsSeen(number: nat) returns (yes: bool)
      requires Valid()
      ensures yes <==> Slot(number) in Slots(seen[..])
    {
      var index := Slot(number);
      yes := Bit(seen[index / 64], BitOf(index));
      assert yes == SlotSet(seen[..], index);
    }

    /** A jump past the window starts a new bitmap; a shorter one clears slot by
        slot behind the moving cursor. */
    method AdvanceSeen(high: nat, distance: nat)
      requires Valid() && high < WRAP16
      modifies this`seen, seen
      ensures Valid() && (seen == old(seen) || fresh(seen))
      ensures Slots(seen[..]) == AdvanceWindow(old(Slots(seen[..])), high, distance)
    {
      if distance >= WINDOW {
        seen := new bv64[WORDS](_ => 0);
      } else {
        ForgetNext(high, distance);
      }
    }

    method ForgetNext(high: nat, distance: nat)
      requires Valid() && high < WRAP16
      modifies seen
      ensures Valid()
      ensures Slots(seen[..]) == Cleared(old(Slots(seen[..])), high, distance)
    {
      ghost var before := Slots(seen[..]);
      var cursor := high;
      var i := 0;
      while i < distance
        invariant 0 <= i <= distance && cursor == (high + i) % WRAP16
        invariant Valid()
        invariant Slots(seen[..]) == Cleared(before, high, i)
      {
        CursorStep(before, high, i);
        i := i + 1;
        cursor := (cursor + 1) % WRAP16;
        Forget(cursor);
      }
    }

    method MoveTo(number: nat, distance: int)
      requires Valid() && highest.Some? && number < WRAP16 && distance > 0
      modifies this`seen, this`highest, seen
      ensures Valid() && (seen == old(seen) || fresh(seen))
      ensures highest == Some(number)
      ensures Slots(seen[..]) == AdvanceWindow(old(Slots(seen[..])), old(highest).value, distance) + {Slot(number)}
    {
      AdvanceSeen(highest.value, distance);
      highest := Some(number);
      MarkSeen(number);
    }

    method RecordAhead(number: nat, distance: int) returns (o: Observation)
      requires Valid() && highest.Some? && number < WRAP16 && distance > 0
      modifies this, seen
      ensures Valid() && (seen == old(seen) || fresh(seen))
      ensures (State(), o) == Ahead(old(State()), number, distance)
    {
      if number < highest.value { wrapEvents := wrapEvents + 1; }
      var skipped := distance - 1;
      gapsDetected := gapsDetected + skipped;
      MoveTo(number, distance);
      advanceFromStart := advanceFromStart + distance;
      if advanceFromStart >= WINDOW { base := None; }
      o := if skipped == 0 then InOrder else Gap(skipped);
    }

    method RecordBehind(number: nat) returns (o: Observation)
      requires Valid()
      modifies this, seen
      ensures Valid() && seen == old(seen)
      ensures (State(), o) == Behind(old(State()), number)
    {
      MarkSeen(number);
      if base.Some? {
        var fromBase := Distance16(base.value, number);
        if fromBase < 0 {
          gapsDetected, base := gapsDetected + -fromBase - 1, Some(number);
          return BaseExtended;
        }
      }
      lateFilled := lateFilled + 1;
      return LateFill;
    }

    method Record(number: nat) returns (o: Observation)
      requires Valid() && number < WRAP16
      modifies this, seen
      ensures Valid() && (seen == old(seen) || fresh(seen))
      ensures (State(), o) == SeqGapTracker.Record(old(State()), number)
    {
      received := received + 1;
      if highest.None? {
        highest, base := Some(number), Some(number);
        MarkSeen(number);
        return First;
      }
      var distance := Distance16(highest.value, number);
      if distance == 0 {
        duplicates := duplicates + 1;
        return Duplicate;
      }
      if distance > 0 {
        o := RecordAhead(number, distance);
        return;
      }
      if -distance >= WINDOW {
        beyondWindow := beyondWindow + 1;
        return BeyondWindow;
      }
      var already := IsSeen(number);
      if already {
        duplicates := duplicates + 1;
        return Duplicate;
      }
      o := RecordBehind(number);
    }
  }
}
