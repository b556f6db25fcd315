/** The reference canvas as it runs: a pixel buffer filled rectangle by rectangle
    in nested loops, and the loop that reads the marker back. */
module SyntheticCanvas {
  import opened Wrappers
  import opened SyntheticMotion

  /** Where a pixel lies in the row-major buffer. */
  function Index(width: nat, x: int, y: int): int {
    y * width + x
  }

  predicate Inside(width: nat, height: nat, x: int, y: int) {
    0 <= x < width && 0 <= y < height
  }

  lemma IndexInBuffer(width: nat, height: nat, x: int, y: int)
    requires Inside(width, height, x, y)
    ensures 0 <= Index(width, x, y) < width * height
  {
    assert y * width <= (height - 1) * width;
    assert (height - 1) * width == height * width - width;
  }

  lemma IndexIsUnique(width: nat, x0: int, y0: int, x1: int, y1: int)
    requires 0 <= x0 < width && 0 <= x1 < width && (x0 != x1 || y0 != y1)
    ensures Index(width, x0, y0) != Index(width, x1, y1)
  {
    if y0 < y1 {
      RowsApart(width, y0, y1);
    } else if y1 < y0 {
      RowsApart(width, y1, y0);
    }
  }

  lemma RowsApart(width: nat, above: int, below: int)
    requires above < below
    ensures above * width + width <= below * width
  {
    var gap := below - above - 1;
    assert gap * width >= 0;
    assert below * width == above * width + gap * width + width;
  }

  /** The buffer shows these rectangles painted in order over the grid. */
  ghost predicate Shows(pixels: seq<Pixel>, width: nat, height: nat, rects: seq<Rect>) {
    |pixels| == width * height &&
    forall x, y {:trigger Index(width, x, y)} :: Inside(width, height, x, y) ==>
      0 <= Index(width, x, y) < |pixels| && pixels[Index(width, x, y)] == Painted(rects, x, y)
  }

  /** As Shows, with the rows above `row` of one more rectangle filled in, and of
      that row the pixels left of `column`. */
  ghost predicate PartlyShows(pixels: seq<Pixel>, width: nat, height: nat, rects: seq<Rect>, r: Rect,
                              row: int, column: int) {
    |pixels| == width * height &&
    forall x, y {:trigger Index(width, x, y)} :: Inside(width, height, x, y) ==>
      0 <= Index(width, x, y) < |pixels| &&
      pixels[Index(width, x, y)] == if Covers(r, x, y) && (y < row || (y == row && x < column)) then r.color
                                    else Painted(rects, x, y)
  }

  lemma FillStarts(pixels: seq<Pixel>, width: nat, height: nat, rects: seq<Rect>, r: Rect)
    requires Shows(pixels, width, height, rects)
    ensures PartlyShows(pixels, width, height, rects, r, r.y, r.x)
  {}

  lemma PixelFilled(pixels: seq<Pixel>, width: nat, height: nat, rects: seq<Rect>, r: Rect, row: int, column: int)
    requires PartlyShows(pixels, width, height, rects, r, row, column)
    requires Inside(width, height, column, row) && Covers(r, column, row)
    ensures 0 <= Index(width, column, row) < |pixels|
    ensures PartlyShows(pixels[Index(width, column, row) := r.color], width, height, rects, r, row, column + 1)
  {
    IndexInBuffer(width, height, column, row);
    forall x, y | Inside(width, height, x, y) && (x != column || y != row)
      ensures Index(width, x, y) != Index(width, column, row)
    {
      IndexIsUnique(width, x, y, column, row);
    }
  }

  lemma RowFilled(pixels: seq<Pixel>, width: nat, height: nat, rects: seq<Rect>, r: Rect, row: int, column: int)
    requires PartlyShows(pixels, width, height, rects, r, row, column) && column == Min(r.x + r.width, width)
    ensures PartlyShows(pixels, width, height, rects, r, row + 1, r.x)
  {}

  lemma FillEnds(pixels: seq<Pixel>, width: nat, height: nat, rects: seq<Rect>, r: Rect, row: int)
    requires PartlyShows(pixels, width, height, rects, r, row, r.x) && row >= Min(r.y + r.height, height)
    ensures Shows(pixels, width, height, rects + [r])
  {
    assert (rects + [r])[..|rects|] == rects;
  }

  // ----- The grid -----------------------------------------------------------

  const GRID: int := 64

  function GridPixel(on: bool): Pixel {
    if on then Pixel(74, 74, 74) else Pixel(32, 12, 18)
  }

  /** The grid drawn so far: columns left of `cols` and that column down to `colTo`,
      then rows above `rows` and that row up to `rowTo`. */
  predicate Drawn(x: int, y: int, cols: int, colTo: int, rows: int, rowTo: int) {
    || (x % GRID == 0 && (x < cols || (x == cols && y < colTo)))
    || (y % GRID == 0 && (y < rows || (y == rows && x < rowTo)))
  }

  ghost predicate GridShows(pixels: seq<Pixel>, width: nat, height: nat, cols: int, colTo: int, rows: int, rowTo: int) {
    |pixels| == width * height &&
    forall x, y {:trigger Index(width, x, y)} :: Inside(width, height, x, y) ==>
      0 <= Index(width, x, y) < |pixels|
      && pixels[Index(width, x, y)] == GridPixel(Drawn(x, y, cols, colTo, rows, rowTo))
  }

  /** One more grid pixel, where the drawing has got to. */
  lemma GridPixelDrawn(pixels: seq<Pixel>, width: nat, height: nat, at: (int, int),
                       was: (int, int, int, int), now: (int, int, int, int))
    requires GridShows(pixels, width, height, was.0, was.1, was.2, was.3) && Inside(width, height, at.0, at.1)
    requires forall x, y :: Inside(width, height, x, y) ==>
      (Drawn(x, y, now.0, now.1, now.2, now.3) <==> Drawn(x, y, was.0, was.1, was.2, was.3) || (x, y) == at)
    ensures 0 <= Index(width, at.0, at.1) < |pixels|
    ensures GridShows(pixels[Index(width, at.0, at.1) := GridPixel(true)], width, height, now.0, now.1, now.2, now.3)
  {
    IndexInBuffer(width, height, at.0, at.1);
    forall x, y | Inside(width, height, x, y) && (x != at.0 || y != at.1)
      ensures Index(width, x, y) != Index(width, at.0, at.1)
    {
      IndexIsUnique(width, x, y, at.0, at.1);
    }
  }

  lemma GridMoves(pixels: seq<Pixel>, width: nat, height: nat,
                  was: (int, int, int, int), now: (int, int, int, int))
    requires GridShows(pixels, width, height, was.0, was.1, was.2, was.3)
    requires forall x, y :: Inside(width, height, x, y) ==>
      (Drawn(x, y, now.0, now.1, now.2, now.3) <==> Drawn(x, y, was.0, was.1, was.2, was.3))
    ensures GridShows(pixels, width, height, now.0, now.1, now.2, now.3)
  {}

  lemma GridStarts(pixels: seq<Pixel>, width: nat, height: nat)
    requires |pixels| == width * height && forall i :: 0 <= i < |pixels| ==> pixels[i] == GridPixel(false)
    ensures GridShows(pixels, width, height, 0, 0, 0, 0)
  {
    forall x, y | Inside(width, height, x, y)
      ensures 0 <= Index(width, x, y) < |pixels|
    {
      IndexInBuffer(width, height, x, y);
    }
  }

  class Canvas {
    const width: nat
    const height: nat
    const pixels: array<Pixel>

    /** The background: a plain field, grid columns, then grid rows. */
    constructor (width: nat, height: nat)
      requires width >= MIN_WIDTH && height >= MIN_HEIGHT
      ensures Valid() && fresh(pixels) && this.width == width && this.height == height
      ensures Shows(pixels[..], width, height, [])
    {
      this.width, this.height := width, height;
      pixels := new Pixel[width * height](_ => Pixel(32, 12, 18));
      new;
      GridStarts(pixels[..], width, height);
      var x := 0;
      while x < width
        invariant 0 <= x && x % GRID == 0 && GridShows(pixels[..], width, height, x, 0, 0, 0)
      {
        DrawColumn(x);
        x := x + GRID;
      }
      var y := 0;
      while y < height
        invariant 0 <= y && y % GRID == 0 && GridShows(pixels[..], width, height, x, 0, y, 0)
      {
        DrawRow(x, y);
        y := y + GRID;
      }
    }

    method DrawColumn(x: int)
      requires Valid() && 0 <= x < width && x % GRID == 0 && GridShows(pixels[..], width, height, x, 0, 0, 0)
      modifies pixels
      ensures GridShows(pixels[..], width, height, x + GRID, 0, 0, 0)
    {
      var y := 0;
      while y < height
        invariant 0 <= y <= height && GridShows(pixels[..], width, height, x, y, 0, 0)
      {
        GridPixelDrawn(pixels[..], width, height, (x, y), (x, y, 0, 0), (x, y + 1, 0, 0));
        ghost var before := pixels[..];
        pixels[Index(width, x, y)] := Pixel(74, 74, 74);
        assert pixels[..] == before[Index(width, x, y) := GridPixel(true)];
        y := y + 1;
      }
      GridMoves(pixels[..], width, height, (x, y, 0, 0), (x + GRID, 0, 0, 0));
    }

    method DrawRow(cols: int, y: int)
      requires Valid() && 0 <= y < height && y % GRID == 0 && GridShows(pixels[..], width, height, cols, 0, y, 0)
      modifies pixels
      ensures GridShows(pixels[..], width, height, cols, 0, y + GRID, 0)
    {
      var x := 0;
      while x < width
        invariant 0 <= x <= width && GridShows(pixels[..], width, height, cols, 0, y, x)
      {
        GridPixelDrawn(pixels[..], width, height, (x, y), (cols, 0, y, x), (cols, 0, y, x + 1));
        ghost var before := pixels[..];
        pixels[Index(width, x, y)] := Pixel(74, 74, 74);
        assert pixels[..] == before[Index(width, x, y) := GridPixel(true)];
        x := x + 1;
      }
      GridMoves(pixels[..], width, height, (cols, 0, y, x), (cols, 0, y + GRID, 0));
    }

    ghost predicate Valid()
    {
      width >= MIN_WIDTH && height >= MIN_HEIGHT && pixels.Length == width * height
    }

    /** One rectangle, clipped at the right and bottom edges. */
    method Fill(r: Rect, ghost rects: seq<Rect>)
      requires Valid() && 0 <= r.x <= width && 0 <= r.y <= height && Shows(pixels[..], width, height, rects)
      modifies pixels
      ensures Shows(pixels[..], width, height, rects + [r])
    {
      if r.width <= 0 || r.height <= 0 {
        return;
      }
      FillStarts(pixels[..], width, height, rects, r);
      var row := r.y;
      while row < Min(r.y + r.height, height)
        invariant r.y <= row && PartlyShows(pixels[..], width, height, rects, r, row, r.x)
      {
        FillRow(r, row, rects);
        row := row + 1;
      }
      FillEnds(pixels[..], width, height, rects, r, row);
    }

    method FillRow(r: Rect, row: int, ghost rects: seq<Rect>)
      requires Valid() && 0 <= r.x <= width && 0 <= row < height && r.y <= row < r.y + r.height && r.width > 0
      requires PartlyShows(pixels[..], width, height, rects, r, row, r.x)
      modifies pixels
      ensures PartlyShows(pixels[..], width, height, rects, r, row + 1, r.x)
    {
      var column := r.x;
      while column < Min(r.x + r.width, width)
        invariant r.x <= column <= Min(r.x + r.width, width)
        invariant PartlyShows(pixels[..], width, height, rects, r, row, column)
      {
        PixelFilled(pixels[..], width, height, rects, r, row, column);
        ghost var before := pixels[..];
        pixels[Index(width, column, row)] := r.color;
        assert pixels[..] == before[Index(width, column, row) := r.color];
        column := column + 1;
      }
      RowFilled(pixels[..], width, height, rects, r, row, column);
    }

    /** Paints a frame over the background: bars, box, square, then the marker. */
    method PaintFrame(id: nat)
      requires Valid() && Shows(pixels[..], width, height, [])
      modifies pixels
      ensures Shows(pixels[..], width, height, Moving(id, width, height) + MarkerRects(id))
    {
      ghost var rects: seq<Rect> := [];
      var index := 0;
      while index < 5
        invariant 0 <= index <= 5 && rects == Bars(id, width, height, index)
        invariant Shows(pixels[..], width, height, rects)
      {
        var x := (id * 7 + index * 313) % width;
        var y := (id * 5 + index * 197) % height;
        var vertical := Rect(x, 0, Min(5, width - x), height, ColorOf(index));
        var horizontal := Rect(0, y, width, Min(5, height - y), ColorOf(index));
        Fill(vertical, rects);
        Fill(horizontal, rects + [vertical]);
        assert rects + [vertical] + [horizontal] == rects + [vertical, horizontal];
        rects := rects + [vertical, horizontal];
        index := index + 1;
      }
      PaintShapes(id, rects);
      PaintMarker(id, Moving(id, width, height));
    }

    method PaintShapes(id: nat, ghost rects: seq<Rect>)
      requires Valid() && Shows(pixels[..], width, height, rects)
      modifies pixels
      ensures Shows(pixels[..], width, height, rects + Shapes(id, width, height))
    {
      var shapes := Shapes(id, width, height);
      var box, inset, square := shapes[0], shapes[1], shapes[2];
      Fill(box, rects);
      Fill(inset, rects + [box]);
      Fill(square, rects + [box] + [inset]);
      assert rects + [box] + [inset] + [square] == rects + shapes;
    }

    method PaintMarker(id: nat, ghost rects: seq<Rect>)
      requires Valid() && Shows(pixels[..], width, height, rects)
      modifies pixels
      ensures Shows(pixels[..], width, height, rects + MarkerRects(id))
    {
      Fill(LeftSync(), rects);
      ghost var left := rects + [LeftSync()];
      var bit := 0;
      assert left + BitRects(id, 0) == left;
      while bit < MARKER_BITS
        invariant 0 <= bit <= MARKER_BITS && Shows(pixels[..], width, height, left + BitRects(id, bit))
      {
        Fill(BitRect(id, bit), left + BitRects(id, bit));
        assert left + BitRects(id, bit) + [BitRect(id, bit)] == left + BitRects(id, bit + 1);
        bit := bit + 1;
      }
      Fill(RightSync(), left + BitRects(id, MARKER_BITS));
      assert left + BitRects(id, MARKER_BITS) + [RightSync()] == rects + MarkerRects(id);
    }

    method BlockIsBright(block: nat, ghost rects: seq<Rect>) returns (bright: bool)
      requires Valid() && block <= MARKER_BITS + 1 && Shows(pixels[..], width, height, rects)
      ensures bright == Shown(rects, block)
    {
      IndexInBuffer(width, height, block * BLOCK + 12, 12);
      bright := Bright(pixels[Index(width, block * BLOCK + 12, 12)]);
    }

    /** Reads the marker back from whatever the buffer shows. */
    method Marker(ghost rects: seq<Rect>) returns (value: Option<int>)
      requires Valid() && Shows(pixels[..], width, height, rects)
      ensures value == ReadMarker(rects)
    {
      var left := BlockIsBright(0, rects);
      var right := BlockIsBright(MARKER_BITS + 1, rects);
      if !left || !right { return None; }
      var sum := 0;
      var bit := 0;
      while bit < MARKER_BITS
        invariant 0 <= bit <= MARKER_BITS && sum == ReadBits(rects, bit)
      {
        var on := BlockIsBright(bit + 1, rects);
        if on { sum := sum + Pow2(bit); }
        bit := bit + 1;
      }
      return Some(sum);
    }
  }

  /** Paint a frame on a new canvas and read its marker: the number's low 24 bits,
      at every size and for every number. */
  method PaintAndRead(width: nat, height: nat, id: nat) returns (value: Option<int>)
    requires width >= MIN_WIDTH && height >= MIN_HEIGHT
    ensures value == Some(id % 0x100_0000)
    ensures value == Some(id) <==> id < 0x100_0000
  {
    var canvas := new Canvas(width, height);
    canvas.PaintFrame(id);
    value := canvas.Marker(Moving(id, width, height) + MarkerRects(id));
    MarkerReadsBack(Moving(id, width, height), id);
  }
}
