/** Window geometry of the memory puzzle: the configuration constants,
    where each box is drawn, and which box lies under a pixel. */
module Layout {
  import opened Wrappers

  const WindowWidth: int := 640
  const WindowHeight: int := 480
  const BoxSize: int := 110
  const GapSize: int := 10
  /** Number of columns of icons. */
  const BoardWidth: int := 5
  /** Number of rows of icons. */
  const BoardHeight: int := 4

  /** Python's `int(a / b)` for a positive divisor: true division, then
      truncation toward zero (Dafny's own `/` rounds toward minus infinity
      when `a` is negative). */
  function TruncDiv(a: int, b: int): (q: int)
    requires b > 0
    ensures 0 <= a ==> q * b <= a < q * b + b
    ensures a < 0 ==> q * b - b < a <= q * b
  {
    if a >= 0 then a / b else -((-a) / b)
  }

  /** Horizontal and vertical margins that centre the board in the window. */
  const XMargin: int := TruncDiv(WindowWidth - BoardWidth * (BoxSize + GapSize), 2)
  const YMargin: int := TruncDiv(WindowHeight - BoardHeight * (BoxSize + GapSize), 2)

  /** With the configured sizes, the board sits 20 pixels from the left
      edge and flush with the top edge. */
  lemma MarginValues()
    ensures XMargin == 20 && YMargin == 0
  {
  }

  /** The board must have an even number of boxes so that it holds pairs. */
  lemma EvenNumberOfBoxes()
    ensures (BoardWidth * BoardHeight) % 2 == 0
  {
  }

  /** A board coordinate: column `x`, row `y`. */
  datatype Box = Box(x: int, y: int)

  predicate InRange(b: Box) {
    0 <= b.x < BoardWidth && 0 <= b.y < BoardHeight
  }

  /** A grid laid out as the game lays out its boards: `BoardWidth` columns,
      each of `BoardHeight` cells, indexed `grid[x][y]`. */
  predicate Shaped<T>(grid: seq<seq<T>>) {
    |grid| == BoardWidth && forall x :: 0 <= x < |grid| ==> |grid[x]| == BoardHeight
  }

  /** The cell of a shaped grid at a box. */
  function At<T>(grid: seq<seq<T>>, b: Box): (r: T)
    requires Shaped(grid) && InRange(b)
  {
    grid[b.x][b.y]
  }

  /** Pixel position of the top-left corner of a box. The square of every
      box of the board is drawn entirely inside the window. */
  function LeftTopCoordsOfBox(boxx: int, boxy: int): (r: (int, int))
    ensures InRange(Box(boxx, boxy)) ==>
      0 <= r.0 && r.0 + BoxSize <= WindowWidth && 0 <= r.1 && r.1 + BoxSize <= WindowHeight
  {
    MarginValues();
    (XMargin + boxx * (BoxSize + GapSize), YMargin + boxy * (BoxSize + GapSize))
  }

  /** The pixel lies inside the box's square, with the half-open rule of a
      pygame rectangle: the top-left corner belongs to it, the right and
      bottom edges do not. */
  predicate OnBox(b: Box, x: int, y: int): (r: bool)
    ensures var (left, top) := LeftTopCoordsOfBox(b.x, b.y);
            && (x == left && y == top ==> r)
            && (r ==> left <= x && top <= y)
            && (x == left + BoxSize || y == top + BoxSize ==> !r)
  {
    var (left, top) := LeftTopCoordsOfBox(b.x, b.y);
    left <= x < left + BoxSize && top <= y < top + BoxSize
  }

  /** No pixel lies on two different boxes. */
  lemma BoxesDisjoint(b: Box, c: Box, x: int, y: int)
    requires OnBox(b, x, y) && OnBox(c, x, y)
    ensures b == c
  {
  }

  /** Reference definition of the box under a pixel, by arithmetic on the
      pixel's offset from the board's corner. */
  function BoxAtPixel(x: int, y: int): (r: Option<Box>) {
    var dx, dy := x - XMargin, y - YMargin;
    var pitch := BoxSize + GapSize;
    if 0 <= dx && 0 <= dy && dx % pitch < BoxSize && dy % pitch < BoxSize
       && dx / pitch < BoardWidth && dy / pitch < BoardHeight
    then Some(Box(dx / pitch, dy / pitch))
    else None
  }

  /** One axis of the lookup: an offset from the board's edge falls in the
      square of index `i` exactly when division by the pitch gives `i`
      and the remainder is short of the gap. */
  lemma OffsetInSquare(d: int, i: int)
    requires 0 <= i
    ensures (0 <= d && d % (BoxSize + GapSize) < BoxSize && d / (BoxSize + GapSize) == i)
        <==> (i * (BoxSize + GapSize) <= d < i * (BoxSize + GapSize) + BoxSize)
  {
    var pitch := BoxSize + GapSize;
    assert d == pitch * (d / pitch) + d % pitch;
    if i * pitch <= d < i * pitch + BoxSize {
      var r := d - i * pitch;
      assert 0 <= r < pitch && d == pitch * i + r;
      assert d / pitch == i && d % pitch == r;
    }
  }

  /** The reference lookup finds exactly the board box whose square holds
      the pixel: pixels in a gap, in a margin or off the board find none. */
  lemma BoxAtPixelIsBoxUnderPixel(x: int, y: int, b: Box)
    ensures BoxAtPixel(x, y) == Some(b) <==> InRange(b) && OnBox(b, x, y)
  {
    MarginValues();
    if 0 <= b.x && 0 <= b.y {
      OffsetInSquare(x - XMargin, b.x);
      OffsetInSquare(y - YMargin, b.y);
    }
  }

  /** A pixel that lies on no box of the board finds no box. */
  lemma BoxAtPixelOffBoard(x: int, y: int)
    requires forall b :: InRange(b) ==> !OnBox(b, x, y)
    ensures BoxAtPixel(x, y) == None
  {
    if BoxAtPixel(x, y).Some? {
      BoxAtPixelIsBoxUnderPixel(x, y, BoxAtPixel(x, y).value);
    }
  }

  /** The box under a pixel, found as the game finds it: by testing every
      box square in turn, column by column, and returning the first hit. */
  method GetBoxAtPixel(x: int, y: int) returns (r: Option<Box>)
    ensures r == BoxAtPixel(x, y)
    ensures r.Some? ==> InRange(r.value) && OnBox(r.value, x, y)
    ensures r.None? ==> forall b :: InRange(b) ==> !OnBox(b, x, y)
  {
    for boxx := 0 to BoardWidth
      invariant forall b :: InRange(b) && b.x < boxx ==> !OnBox(b, x, y)
    {
      for boxy := 0 to BoardHeight
        invariant forall b :: InRange(b) && (b.x < boxx || (b.x == boxx && b.y < boxy)) ==> !OnBox(b, x, y)
      {
        var (left, top) := LeftTopCoordsOfBox(boxx, boxy);
        if left <= x < left + BoxSize && top <= y < top + BoxSize {
          BoxAtPixelIsBoxUnderPixel(x, y, Box(boxx, boxy));
          return Some(Box(boxx, boxy));
        }
      }
    }
    BoxAtPixelOffBoard(x, y);
    return None;
  }
}
