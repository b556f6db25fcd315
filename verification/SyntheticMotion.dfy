/** The benchmark's authored frames: rectangles painted in order over a grid, the
    last of them a marker that must read back as the frame's number. A pixel's
    four bytes are one value here. */
module SyntheticMotion {
  import opened Wrappers

  const MIN_WIDTH: int := 960
  const MIN_HEIGHT: int := 600
  /** Side of a marker block. */
  const BLOCK: int := 24
  const MARKER_BITS: nat := 24

  datatype Pixel = Pixel(b: int, g: int, r: int)

  datatype Rect = Rect(x: int, y: int, width: int, height: int, color: Pixel)

  predicate Covers(r: Rect, x: int, y: int) {
    r.x <= x < r.x + r.width && r.y <= y < r.y + r.height
  }

  function Background(x: int, y: int): Pixel {
    if x % 64 == 0 || y % 64 == 0 then Pixel(74, 74, 74) else Pixel(32, 12, 18)
  }

  /** What painting the rectangles in order leaves at one pixel. */
  function Painted(rects: seq<Rect>, x: int, y: int): Pixel {
    if rects == [] then Background(x, y)
    else if Covers(rects[|rects| - 1], x, y) then rects[|rects| - 1].color
    else Painted(rects[..|rects| - 1], x, y)
  }

  // ----- The marker ---------------------------------------------------------

  /** 1 << bit. */
  function Pow2(bit: nat): (p: int)
    ensures p > 0
  {
    if bit == 0 then 1 else Pow2(bit - 1) * 2
  }

  /** id & (1 << bit) != 0. */
  predicate HasBit(id: nat, bit: nat) {
    id / Pow2(bit) % 2 == 1
  }

  function BitRect(id: nat, bit: nat): Rect {
    var sample := if HasBit(id, bit) then 255 else 0;
    Rect((bit + 1) * BLOCK, 0, BLOCK, BLOCK, Pixel(sample, sample, sample))
  }

  function BitRects(id: nat, bits: nat): seq<Rect> {
    if bits == 0 then [] else BitRects(id, bits - 1) + [BitRect(id, bits - 1)]
  }

  function LeftSync(): Rect {
    Rect(0, 0, 24, 24, Pixel(255, 255, 0))
  }

  function RightSync(): Rect {
    Rect(600, 0, 24, 24, Pixel(255, 0, 255))
  }

  function MarkerRects(id: nat): seq<Rect> {
    [LeftSync()] + BitRects(id, MARKER_BITS) + [RightSync()]
  }

  predicate Bright(p: Pixel) {
    p.b + p.g + p.r >= 384
  }

  /** Whether the sample point of a marker block is bright. */
  predicate Shown(rects: seq<Rect>, block: int) {
    Bright(Painted(rects, block * BLOCK + 12, 12))
  }

  /** The value read from the blocks' brightness. Each bit is set once, so or-ing
      it in adds it. */
  function ReadBits(rects: seq<Rect>, bits: nat): int {
    if bits == 0 then 0
    else ReadBits(rects, bits - 1) + if Shown(rects, bits) then Pow2(bits - 1) else 0
  }

  function ReadMarker(rects: seq<Rect>): Option<int> {
    if Shown(rects, 0) && Shown(rects, MARKER_BITS + 1) then Some(ReadBits(rects, MARKER_BITS)) else None
  }

  // ----- Moving shapes ------------------------------------------------------

  function Max(a: int, b: int): int {
    if a < b then b else a
  }

  function Min(a: int, b: int): int {
    if a < b then a else b
  }

  function Bounce(frame: nat, speed: int, extent: int, side: int): int {
    var span := Max(1, extent - side);
    var pace := if speed < 0 then -speed else speed;
    var phase := (frame * pace) % (2 * span);
    var position := if phase <= span then phase else 2 * span - phase;
    if speed >= 0 then position else span - position
  }

  function ColorOf(index: nat): Pixel {
    if index == 0 then Pixel(92, 54, 255)
    else if index == 1 then Pixel(255, 220, 36)
    else if index == 2 then Pixel(48, 224, 255)
    else if index == 3 then Pixel(88, 255, 116)
    else Pixel(255, 72, 210)
  }

  /** One vertical and one horizontal bar a colour. */
  function Bars(frame: nat, width: int, height: int, count: nat): seq<Rect>
    requires width > 0 && height > 0
  {
    if count == 0 then []
    else
      var index := count - 1;
      var x := (frame * 7 + index * 313) % width;
      var y := (frame * 5 + index * 197) % height;
      Bars(frame, width, height, index)
      + [Rect(x, 0, Min(5, width - x), height, ColorOf(index)),
         Rect(0, y, width, Min(5, height - y), ColorOf(index))]
  }

  function Shapes(frame: nat, width: int, height: int): seq<Rect> {
    var boxX, boxY := Bounce(frame, 11, width, 240), Bounce(frame, 7, height, 150);
    var shapeX, shapeY := Bounce(frame, -9, width, 168), Bounce(frame, 13, height, 168);
    [Rect(boxX, boxY, 240, 150, ColorOf(0)),
     Rect(boxX + 12, boxY + 12, 216, 126, ColorOf(1)),
     Rect(shapeX, shapeY, 168, 168, ColorOf(3))]
  }

  function Moving(frame: nat, width: int, height: int): seq<Rect>
    requires width > 0 && height > 0
  {
    Bars(frame, width, height, 5) + Shapes(frame, width, height)
  }

  // ----- Shapes stay on the canvas ------------------------------------------

  predicate OnCanvas(r: Rect, width: int, height: int) {
    0 <= r.x && 0 <= r.y && r.x + r.width <= width && r.y + r.height <= height
  }

  lemma BounceStays(frame: nat, speed: int, extent: int, side: int)
    requires side < extent
    ensures 0 <= Bounce(frame, speed, extent, side) <= extent - side
  {}

  lemma ShapesStay(frame: nat, width: int, height: int)
    requires width >= MIN_WIDTH && height >= MIN_HEIGHT
    ensures forall i :: 0 <= i < 3 ==> OnCanvas(Shapes(frame, width, height)[i], width, height)
  {
    BounceStays(frame, 11, width, 240);
    BounceStays(frame, 7, height, 150);
    BounceStays(frame, -9, width, 168);
    BounceStays(frame, 13, height, 168);
  }

  lemma {:induction false} BarsStay(frame: nat, width: int, height: int, count: nat, i: nat)
    requires width >= MIN_WIDTH && height >= MIN_HEIGHT && i < |Bars(frame, width, height, count)|
    ensures OnCanvas(Bars(frame, width, height, count)[i], width, height)
  {
    if count > 0 {
      var before := Bars(frame, width, height, count - 1);
      if i < |before| { BarsStay(frame, width, height, count - 1, i); }
    }
  }

  /** At every size the definition allows, every moving shape lies on the canvas. */
  lemma MovingStays(frame: nat, width: int, height: int, i: nat)
    requires width >= MIN_WIDTH && height >= MIN_HEIGHT && i < |Moving(frame, width, height)|
    ensures OnCanvas(Moving(frame, width, height)[i], width, height)
  {
    var bars := Bars(frame, width, height, 5);
    if i < |bars| {
      BarsStay(frame, width, height, 5, i);
    } else {
      ShapesStay(frame, width, height);
      assert Moving(frame, width, height)[i] == Shapes(frame, width, height)[i - |bars|];
    }
  }

  // ----- The marker reads back ----------------------------------------------

  lemma {:induction false} UnderBits(under: seq<Rect>, id: nat, bits: nat, x: int, y: int)
    requires x < BLOCK || (bits + 1) * BLOCK <= x
    ensures Painted(under + BitRects(id, bits), x, y) == Painted(under, x, y)
  {
    if bits == 0 {
      assert under + [] == under;
    } else {
      var all := under + BitRects(id, bits);
      assert all == under + BitRects(id, bits - 1) + [BitRect(id, bits - 1)];
      assert all[..|all| - 1] == under + BitRects(id, bits - 1);
      UnderBits(under, id, bits - 1, x, y);
    }
  }

  /** Each bit's block shows its own sample, whatever lies under it. */
  lemma {:induction false} BitShows(under: seq<Rect>, id: nat, bits: nat, bit: nat)
    requires bit < bits
    ensures Painted(under + BitRects(id, bits), (bit + 1) * BLOCK + 12, 12) == BitRect(id, bit).color
  {
    var all := under + BitRects(id, bits);
    assert all == under + BitRects(id, bits - 1) + [BitRect(id, bits - 1)];
    assert all[..|all| - 1] == under + BitRects(id, bits - 1);
    if bit < bits - 1 { BitShows(under, id, bits - 1, bit); }
  }

  lemma MarkerShows(under: seq<Rect>, id: nat, block: nat)
    requires block <= MARKER_BITS + 1
    ensures Shown(under + MarkerRects(id), block)
        <==> block == 0 || block == MARKER_BITS + 1 || HasBit(id, block - 1)
  {
    var left := under + [LeftSync()];
    var lower := left + BitRects(id, MARKER_BITS);
    var all := under + MarkerRects(id);
    assert all == lower + [RightSync()];
    assert all[..|all| - 1] == lower;
    if block == 0 {
      UnderBits(left, id, MARKER_BITS, 12, 12);
      assert left[|left| - 1] == LeftSync();
    } else if block <= MARKER_BITS {
      BitShows(left, id, MARKER_BITS, block - 1);
    }
  }

  // ----- Bits ---------------------------------------------------------------

  lemma RemainderIs(a: int, n: int, q: int, r: int)
    requires n > 0 && a == q * n + r && 0 <= r < n
    ensures a % n == r
  {
    var gap := a / n - q;
    assert gap * n == r - a % n;
    if gap > 0 {
      Multiple(gap, n);
    } else if gap < 0 {
      Multiple(-gap, n);
    }
  }

  lemma Multiple(k: int, n: int)
    requires k >= 1 && n > 0
    ensures k * n >= n && -k * n <= -n
  {}

  /** One more bit of a number: its remainder by the next power. */
  lemma OneMoreBit(id: nat, p: int)
    requires p > 0
    ensures id % (p * 2) == id % p + if id / p % 2 == 1 then p else 0
  {
    var q, r := id / p, id % p;
    var s, t := q / 2, q % 2;
    assert id == q * p + r && q == 2 * s + t;
    assert q * p == s * (p * 2) + t * p;
    RemainderIs(id, p * 2, s, t * p + r);
  }

  lemma {:induction false} BitsReadBack(under: seq<Rect>, id: nat, bits: nat)
    requires bits <= MARKER_BITS
    ensures ReadBits(under + MarkerRects(id), bits) == id % Pow2(bits)
    decreases bits
  {
    if bits > 0 {
      BitsReadBack(under, id, bits - 1);
      MarkerShows(under, id, bits);
      OneMoreBit(id, Pow2(bits - 1));
    }
  }

  lemma MarkerPower()
    ensures Pow2(MARKER_BITS) == 0x100_0000
  {
    assert Pow2(8) == 0x100;
    assert Pow2(16) == 0x1_0000;
  }

  /** The marker round trip: whatever was painted under it, the marker of a frame
      reads back as the low 24 bits of the frame's number. */
  lemma MarkerReadsBack(under: seq<Rect>, id: nat)
    ensures ReadMarker(under + MarkerRects(id)) == Some(id % 0x100_0000)
  {
    MarkerShows(under, id, 0);
    MarkerShows(under, id, MARKER_BITS + 1);
    BitsReadBack(under, id, MARKER_BITS);
    MarkerPower();
  }

  /** Frame numbers round-trip exactly below 2^24. */
  lemma RoundTripsIff(under: seq<Rect>, id: nat)
    ensures ReadMarker(under + MarkerRects(id)) == Some(id) <==> id < 0x100_0000
  {
    MarkerReadsBack(under, id);
  }
}
