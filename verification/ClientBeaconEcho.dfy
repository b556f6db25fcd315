/** The beacon echo exchange: which mirrors close a clock sample, and how far a
    closed sample can be from the true offset. Timestamps are u64 microseconds,
    and differences wrap to i64 as in the source. */
module ClientBeaconEcho {
  import opened Positions
  import opened Wrappers

  const WRAP64: int := 0x1_0000_0000_0000_0000
  const HALF64: int := 0x8000_0000_0000_0000
  const MAX_PENDING: nat := 16
  const MAX_RTT: int := 5_000_000

  /** An i64 holding these bits. */
  function Signed(x: int): int {
    (x + HALF64) % WRAP64 - HALF64
  }

  /** i64 division truncates toward zero. */
  function Half(x: int): int {
    if x >= 0 then x / 2 else -(-x / 2)
  }

  datatype Sample = Sample(seqNo: nat, offset: int, rtt: int, measuredAt: int)

  predicate Plausible(s: Sample) {
    0 <= s.rtt <= MAX_RTT
  }

  datatype Pending = Pending(seqNo: nat, t1: int, t2: int, t3: int)

  datatype Mirror = Mirror(seqNo: nat, clientSend: int, hostReceive: int)

  datatype Beacon = Beacon(seqNo: nat, hostSend: int, lastEcho: Option<Mirror>)

  datatype Book = Book(pending: seq<Pending>, refused: nat)

  function Remember(pending: seq<Pending>, p: Pending): seq<Pending> {
    var all := pending + [p];
    if |all| > MAX_PENDING then all[|all| - MAX_PENDING..] else all
  }

  function Find(pending: seq<Pending>, seqNo: nat): Option<Pending> {
    if pending == [] then None
    else if pending[0].seqNo == seqNo then Some(pending[0])
    else Find(pending[1..], seqNo)
  }

  function Without(pending: seq<Pending>, seqNo: nat): seq<Pending> {
    if pending == [] then []
    else (if pending[0].seqNo == seqNo then [] else [pending[0]]) + Without(pending[1..], seqNo)
  }

  function Turnaround(p: Pending): int {
    Signed(p.t3 - p.t2)
  }

  function Close(p: Pending, m: Mirror): Sample {
    var outbound := Signed(p.t2 - p.t1);
    var inbound := Signed(p.t3 - m.hostReceive);
    var roundTrip := Signed(m.hostReceive - p.t1);
    Sample(m.seqNo, Half(Signed(outbound + inbound)), Signed(roundTrip - Turnaround(p)), p.t2)
  }

  /** Answers one beacon: what is remembered, and the sample its mirror closed. */
  function Answer(b: Book, beacon: Beacon, t2: int, t3: int): (Book, Option<Sample>) {
    var echoed := b.(pending := Remember(b.pending, Pending(beacon.seqNo, beacon.hostSend, t2, t3)));
    if beacon.lastEcho.None? then (echoed, None)
    else
      var m := beacon.lastEcho.value;
      var found := Find(echoed.pending, m.seqNo);
      if found.None? then (echoed, None)
      else
        var rest := echoed.(pending := Without(echoed.pending, m.seqNo));
        var s := Close(found.value, m);
        if m.clientSend == found.value.t3 && Turnaround(found.value) >= 0 && Plausible(s) then (rest, Some(s))
        else (rest.(refused := rest.refused + 1), None)
  }

  // ----- An honest sample ---------------------------------------------------

  /** A true exchange: the client's clock is `offset` ahead, both legs take time,
      and everything fits an i64 with room. */
  predicate Honest(p: Pending, m: Mirror, offset: int, out: int, back: int) {
    && p.t2 == p.t1 + offset + out && m.hostReceive == p.t3 - offset + back
    && 0 <= out && 0 <= back && 0 <= p.t3 - p.t2
    && -HALF64 / 4 <= offset <= HALF64 / 4 && out + back + (p.t3 - p.t2) < HALF64 / 4
  }

  /** The sample of an honest exchange is within half its round trip of the true
      offset, up to the rounding of one division; and its round trip is the two
      legs alone. */
  lemma HonestSampleIsClose(p: Pending, m: Mirror, offset: int, out: int, back: int)
    requires Honest(p, m, offset, out, back)
    ensures var s := Close(p, m);
      s.rtt == out + back && -s.rtt - 1 <= 2 * (s.offset - offset) <= s.rtt + 1
      && Turnaround(p) == p.t3 - p.t2 && s.measuredAt == p.t2
  {
    SignedIsExact(p.t2 - p.t1);
    SignedIsExact(p.t3 - m.hostReceive);
    SignedIsExact(m.hostReceive - p.t1);
    SignedIsExact(p.t3 - p.t2);
    SignedIsExact(2 * offset + out - back);
    SignedIsExact(out + back);
  }

  lemma SignedIsExact(x: int)
    requires -HALF64 <= x < HALF64
    ensures Signed(x) == x
  {}

  // ----- Who may close a sample ---------------------------------------------

  lemma {:induction false} FindIs(pending: seq<Pending>, seqNo: nat)
    ensures Find(pending, seqNo).Some? ==>
      Find(pending, seqNo).value in pending && Find(pending, seqNo).value.seqNo == seqNo
    ensures Find(pending, seqNo).None? ==> forall i :: 0 <= i < |pending| ==> pending[i].seqNo != seqNo
  {
    if pending != [] && pending[0].seqNo != seqNo { FindIs(pending[1..], seqNo); }
  }

  /** A sample is closed only by a mirror of an echo this book sent, verbatim, and
      only when the times it implies are real. */
  lemma OnlyOwnEchoesClose(b: Book, beacon: Beacon, t2: int, t3: int)
    requires Answer(b, beacon, t2, t3).1.Some?
    ensures var s := Answer(b, beacon, t2, t3).1.value;
      && Plausible(s) && beacon.lastEcho.Some? && s.seqNo == beacon.lastEcho.value.seqNo
      && exists p :: (p in b.pending || p == Pending(beacon.seqNo, beacon.hostSend, t2, t3))
           && p.seqNo == s.seqNo && p.t3 == beacon.lastEcho.value.clientSend
           && s.measuredAt == p.t2 && Turnaround(p) >= 0
  {
    var mine := Pending(beacon.seqNo, beacon.hostSend, t2, t3);
    var pending := Remember(b.pending, mine);
    FindIs(pending, beacon.lastEcho.value.seqNo);
    var p := Find(pending, beacon.lastEcho.value.seqNo).value;
    assert p in b.pending + [mine];
    assert p in b.pending || p == mine;
  }

  // ----- Exactly when one closes, and with what -----------------------------

  /** `v` is what an i64 holds of `x`. */
  predicate Holds(v: int, x: int) {
    -HALF64 <= v < HALF64 && (v - x) % WRAP64 == 0
  }

  lemma SignedHolds(x: int)
    ensures Holds(Signed(x), x)
  {}

  lemma HoldsSum(a: int, x: int, b: int, y: int, v: int)
    requires Holds(a, x) && Holds(b, y)
    ensures Holds(v, a + b) ==> Holds(v, x + y)
    ensures Holds(v, a - b) ==> Holds(v, x - y)
  {
    var j, k := (a - x) / WRAP64, (b - y) / WRAP64;
    if Holds(v, a + b) {
      var n := (v - (a + b)) / WRAP64;
      assert v - (x + y) == (n + j + k) * WRAP64;
      WholeWraps(v - (x + y), n + j + k);
    }
    if Holds(v, a - b) {
      var n := (v - (a - b)) / WRAP64;
      assert v - (x - y) == (n + j - k) * WRAP64;
      WholeWraps(v - (x - y), n + j - k);
    }
  }

  lemma WholeWraps(z: int, k: int)
    requires z == k * WRAP64
    ensures z % WRAP64 == 0
  {
    assert z == z / WRAP64 * WRAP64 + z % WRAP64;
  }

  /** The sample of an exchange: the round trip without the turnaround, and half of
      what both legs say, toward zero, in the source's 64 bits. */
  lemma SampleIs(p: Pending, m: Mirror) returns (s: Sample, doubled: int)
    ensures s == Close(p, m) && s.seqNo == m.seqNo && s.measuredAt == p.t2
    ensures Holds(s.rtt, m.hostReceive - p.t1 - (p.t3 - p.t2))
    ensures Holds(doubled, p.t2 - p.t1 + (p.t3 - m.hostReceive))
    ensures if doubled >= 0 then 0 <= doubled - 2 * s.offset <= 1 else -1 <= doubled - 2 * s.offset <= 0
  {
    s := Close(p, m);
    doubled := DoubledIs(p, m);
    TripIs(p, m);
  }

  lemma TripIs(p: Pending, m: Mirror)
    ensures Holds(Close(p, m).rtt, m.hostReceive - p.t1 - (p.t3 - p.t2))
  {
    var trip, turn := Signed(m.hostReceive - p.t1), Signed(p.t3 - p.t2);
    SignedHolds(m.hostReceive - p.t1);
    SignedHolds(p.t3 - p.t2);
    SignedHolds(trip - turn);
    HoldsSum(trip, m.hostReceive - p.t1, turn, p.t3 - p.t2, Signed(trip - turn));
  }

  lemma DoubledIs(p: Pending, m: Mirror) returns (doubled: int)
    ensures Holds(doubled, p.t2 - p.t1 + (p.t3 - m.hostReceive)) && Close(p, m).offset == Half(doubled)
  {
    var outbound, inbound := Signed(p.t2 - p.t1), Signed(p.t3 - m.hostReceive);
    doubled := Signed(outbound + inbound);
    SignedHolds(p.t2 - p.t1);
    SignedHolds(p.t3 - m.hostReceive);
    SignedHolds(outbound + inbound);
    HoldsSum(outbound, p.t2 - p.t1, inbound, p.t3 - m.hostReceive, doubled);
  }

  /** The first of the number, or none. */
  predicate IsFirst(pending: seq<Pending>, seqNo: nat, at: nat) {
    && at <= |pending| && (forall k :: 0 <= k < at ==> pending[k].seqNo != seqNo)
    && (at < |pending| ==> pending[at].seqNo == seqNo)
  }

  lemma {:induction false} FindIsFirst(pending: seq<Pending>, seqNo: nat) returns (at: nat)
    ensures IsFirst(pending, seqNo, at)
    ensures Find(pending, seqNo) == if at < |pending| then Some(pending[at]) else None
  {
    at := 0;
    if pending != [] && pending[0].seqNo != seqNo {
      var rest := FindIsFirst(pending[1..], seqNo);
      at := rest + 1;
    }
  }

  lemma {:induction false} WithoutPicks(pending: seq<Pending>, seqNo: nat) returns (at: seq<nat>)
    ensures Picks(at, pending, Without(pending, seqNo))
    ensures forall k :: 0 <= k < |pending| ==> (k in at <==> pending[k].seqNo != seqNo)
  {
    if pending == [] {
      at := [];
    } else {
      var rest := WithoutPicks(pending[1..], seqNo);
      var head := pending[0].seqNo != seqNo;
      at := Behind(rest, head);
      BehindPicks(rest, pending, Without(pending[1..], seqNo), head);
      forall k | 0 <= k < |pending|
        ensures k in at <==> pending[k].seqNo != seqNo
      {
        BehindHolds(rest, head, k);
        if k > 0 { assert pending[1..][k - 1] == pending[k]; }
      }
    }
  }

  /** A beacon is remembered, with the fifteen before it. Its mirror spends every echo of
      its number still remembered, and closes a sample of the first exactly when it
      mirrors that one's send verbatim, the turnaround is not negative and the round trip
      is one a network makes; otherwise it is refused. */
  lemma AnswerIs(b: Book, beacon: Beacon, t2: int, t3: int)
      returns (all: seq<Pending>, first: nat, left: seq<nat>)
    ensures var more := b.pending + [Pending(beacon.seqNo, beacon.hostSend, t2, t3)];
      all == if |more| <= 16 then more else more[|more| - 16..]
    ensures beacon.lastEcho.None? ==> Answer(b, beacon, t2, t3) == (Book(all, b.refused), None)
    ensures beacon.lastEcho.Some? ==>
      var m := beacon.lastEcho.value;
      var (after, closed) := Answer(b, beacon, t2, t3);
      && IsFirst(all, m.seqNo, first)
      && (first == |all| ==> after == Book(all, b.refused) && closed == None)
      && (first < |all| ==>
            var p := all[first];
            && Picks(left, all, after.pending)
            && (forall k :: 0 <= k < |all| ==> (k in left <==> all[k].seqNo != m.seqNo))
            && after.refused == b.refused + Count(closed.None?)
            && closed == if p.t3 == m.clientSend && Turnaround(p) >= 0 && 0 <= Close(p, m).rtt <= 5_000_000
                         then Some(Close(p, m)) else None)
  {
    all := Remember(b.pending, Pending(beacon.seqNo, beacon.hostSend, t2, t3));
    first, left := 0, [];
    if beacon.lastEcho.Some? {
      first := FindIsFirst(all, beacon.lastEcho.value.seqNo);
      left := WithoutPicks(all, beacon.lastEcho.value.seqNo);
    }
  }

  // ----- At most one sample an echo -----------------------------------------

  function Awaiting(pending: seq<Pending>, seqNo: nat): nat {
    if pending == [] then 0 else Count(pending[0].seqNo == seqNo) + Awaiting(pending[1..], seqNo)
  }

  lemma {:induction false} AwaitingAppend(a: seq<Pending>, b: seq<Pending>, seqNo: nat)
    ensures Awaiting(a + b, seqNo) == Awaiting(a, seqNo) + Awaiting(b, seqNo)
  {
    if a == [] {
      assert a + b == b;
    } else {
      assert (a + b)[1..] == a[1..] + b;
      AwaitingAppend(a[1..], b, seqNo);
    }
  }

  lemma RememberAwaits(pending: seq<Pending>, p: Pending, seqNo: nat)
    ensures Awaiting(Remember(pending, p), seqNo) <= Awaiting(pending, seqNo) + Count(p.seqNo == seqNo)
    ensures |pending| <= MAX_PENDING ==> |Remember(pending, p)| <= MAX_PENDING
  {
    var all := pending + [p];
    AwaitingAppend(pending, [p], seqNo);
    assert Awaiting([p], seqNo) == Count(p.seqNo == seqNo) by { assert [p][1..] == []; }
    if |all| > MAX_PENDING {
      var cut := |all| - MAX_PENDING;
      AwaitingAppend(all[..cut], all[cut..], seqNo);
      assert all[..cut] + all[cut..] == all;
    }
  }

  lemma {:induction false} WithoutAwaits(pending: seq<Pending>, gone: nat, seqNo: nat)
    ensures Awaiting(Without(pending, gone), seqNo) == if gone == seqNo then 0 else Awaiting(pending, seqNo)
    ensures |Without(pending, gone)| <= |pending|
  {
    if pending != [] {
      WithoutAwaits(pending[1..], gone, seqNo);
      var head := if pending[0].seqNo == gone then [] else [pending[0]];
      AwaitingAppend(head, Without(pending[1..], gone), seqNo);
      if pending[0].seqNo != gone { assert head[1..] == []; }
    }
  }

  lemma {:induction false} FoundAwaits(pending: seq<Pending>, seqNo: nat)
    requires Find(pending, seqNo).Some?
    ensures Awaiting(pending, seqNo) >= 1
  {
    if pending[0].seqNo != seqNo { FoundAwaits(pending[1..], seqNo); }
  }

  lemma AnswerSpends(b: Book, beacon: Beacon, t2: int, t3: int, seqNo: nat)
    ensures var r := Answer(b, beacon, t2, t3);
      Count(r.1.Some? && r.1.value.seqNo == seqNo) + Awaiting(r.0.pending, seqNo)
      <= Awaiting(b.pending, seqNo) + Count(beacon.seqNo == seqNo)
    ensures |b.pending| <= MAX_PENDING ==> |Answer(b, beacon, t2, t3).0.pending| <= MAX_PENDING
  {
    var mine := Pending(beacon.seqNo, beacon.hostSend, t2, t3);
    var pending := Remember(b.pending, mine);
    RememberAwaits(b.pending, mine, seqNo);
    if beacon.lastEcho.Some? && Find(pending, beacon.lastEcho.value.seqNo).Some? {
      var gone := beacon.lastEcho.value.seqNo;
      WithoutAwaits(pending, gone, seqNo);
      FoundAwaits(pending, gone);
    }
  }

  datatype Event = Event(beacon: Beacon, t2: int, t3: int)

  function Run(b: Book, events: seq<Event>): Book
    decreases |events|
  {
    if events == [] then b
    else Run(Answer(b, events[0].beacon, events[0].t2, events[0].t3).0, events[1..])
  }

  function Closed(b: Book, events: seq<Event>, seqNo: nat): nat
    decreases |events|
  {
    if events == [] then 0
    else
      var r := Answer(b, events[0].beacon, events[0].t2, events[0].t3);
      Count(r.1.Some? && r.1.value.seqNo == seqNo) + Closed(r.0, events[1..], seqNo)
  }

  function Echoed(events: seq<Event>, seqNo: nat): nat {
    if events == [] then 0 else Count(events[0].beacon.seqNo == seqNo) + Echoed(events[1..], seqNo)
  }

  /** Over any run, hostile mirrors included, no more samples close for a beacon
      number than echoes were sent for it, and few echoes are remembered. */
  lemma {:induction false} SamplesNeverOutnumberEchoes(b: Book, events: seq<Event>, seqNo: nat)
    requires |b.pending| <= MAX_PENDING
    ensures Closed(b, events, seqNo) + Awaiting(Run(b, events).pending, seqNo)
         <= Awaiting(b.pending, seqNo) + Echoed(events, seqNo)
    ensures |Run(b, events).pending| <= MAX_PENDING
    decreases |events|
  {
    if events != [] {
      AnswerSpends(b, events[0].beacon, events[0].t2, events[0].t3, seqNo);
      SamplesNeverOutnumberEchoes(Answer(b, events[0].beacon, events[0].t2, events[0].t3).0, events[1..], seqNo);
    }
  }

  // ----- The book as it runs ------------------------------------------------

  class EchoBook {
    var pending: seq<Pending>
    var mirrorsRefused: nat

    ghost function State(): Book
      reads this
    {
      Book(pending, mirrorsRefused)
    }

    constructor ()
      ensures State() == Book([], 0)
    {
      pending, mirrorsRefused := [], 0;
    }

    method AnswerBeacon(beacon: Beacon, t2: int, t3: int) returns (sample: Option<Sample>)
      modifies this
      ensures (State(), sample) == Answer(old(State()), beacon, t2, t3)
    {
      pending := pending + [Pending(beacon.seqNo, beacon.hostSend, t2, t3)];
      if |pending| > MAX_PENDING { pending := pending[|pending| - MAX_PENDING..]; }
      if beacon.lastEcho.None? { return None; }
      var mirror := beacon.lastEcho.value;
      var found := Find(pending, mirror.seqNo);
      if found.None? { return None; }
      pending := Without(pending, mirror.seqNo);
      if mirror.clientSend != found.value.t3 {
        mirrorsRefused := mirrorsRefused + 1;
        return None;
      }
      var closed := Close(found.value, mirror);
      if Turnaround(found.value) < 0 || !Plausible(closed) {
        mirrorsRefused := mirrorsRefused + 1;
        return None;
      }
      return Some(closed);
    }
  }
}
