/** Pixel/square conversion of the `Coordinates` class (graphics.py). The window is
    8 * squareSize pixels wide and high, y grows downwards, and row 0 is drawn at the
    bottom. `SQUARE_SIZE` comes from settings.py, which is not part of this model; it
    is a positive parameter here. Python's `//` with a positive divisor rounds down,
    as Dafny's `/` does. */
module Coordinates {
  import opened Wrappers
  import opened Squares

  /** The top-left pixel of the cell where a square is drawn: columns run left to right
      and rows bottom-up, so row 7 starts at the top line y = 0. */
  function GetCoordinates(square: Square, squareSize: int): (xy: (int, int))
    requires squareSize > 0
    ensures xy.0 == square.column * squareSize
    ensures xy.1 == (7 - square.row) * squareSize
  {
    var height := 8 * squareSize;
    MulSub(8, square.row + 1, squareSize);
    (square.column * squareSize, height - (square.row + 1) * squareSize)
  }

  /** The square under a pixel, as the source computes it, or None off the board. */
  function GetSquare(xy: (int, int), squareSize: int): (r: Option<Square>)
    requires squareSize > 0
    ensures r.Some? ==> r.value.IsValid()
  {
    var height := 8 * squareSize;
    var row := (height - xy.1) / squareSize;
    var column := xy.0 / squareSize;
    var square := Square(row, column);
    if square.IsValid() then Some(square) else None
  }

  /** The square under a pixel with the row counted from the pixel's own line, so that
      a cell's top pixel line belongs to that cell. */
  function GetSquareCorrected(xy: (int, int), squareSize: int): (r: Option<Square>)
    requires squareSize > 0
    ensures r.Some? ==> r.value.IsValid()
  {
    var height := 8 * squareSize;
    var row := (height - 1 - xy.1) / squareSize;
    var column := xy.0 / squareSize;
    var square := Square(row, column);
    if square.IsValid() then Some(square) else None
  }

  // ----- Products with a positive factor, one fact per lemma -----

  lemma MulSub(a: int, b: int, s: int)
    ensures a * s - b * s == (a - b) * s
  {
  }

  lemma MulMono(a: int, b: int, s: int)
    requires s > 0
    ensures a <= b ==> a * s <= b * s
  {
    if a <= b {
      MulSub(b, a, s);
      assert (b - a) * s >= 0;
    }
  }

  lemma MulBounds(t: int, s: int)
    requires s > 0
    ensures t >= 1 ==> t * s >= s
    ensures t <= -1 ==> t * s <= -s
  {
    MulMono(1, t, s);
    MulMono(t, -1, s);
  }

  /** Integer division by a positive divisor picks the q with q * s <= n < (q + 1) * s. */
  lemma DivIsFloor(n: int, s: int, q: int)
    requires s > 0 && q * s <= n < q * s + s
    ensures n / s == q && n % s == n - q * s
  {
    var k, m := n / s, n % s;
    assert n == k * s + m && 0 <= m < s;
    MulSub(k, q, s);
    MulBounds(k - q, s);
  }

  /** A valid square's cell starts on the grid of multiples of squareSize, inside the
      window: at column * squareSize across and (7 - row) * squareSize down. */
  lemma CoordinatesOnGrid(square: Square, squareSize: int)
    requires squareSize > 0 && square.IsValid()
    ensures
      var xy := GetCoordinates(square, squareSize);
      && xy == (square.column * squareSize, (7 - square.row) * squareSize)
      && 0 <= xy.0 <= 7 * squareSize && 0 <= xy.1 <= 7 * squareSize
      && xy.0 % squareSize == 0 && xy.1 % squareSize == 0
  {
    var c, r := square.column, square.row;
    MulSub(8, r + 1, squareSize);
    MulMono(0, c, squareSize);
    MulMono(c, 7, squareSize);
    MulMono(0, 7 - r, squareSize);
    MulMono(7 - r, 7, squareSize);
    DivIsFloor(c * squareSize, squareSize, c);
    DivIsFloor((7 - r) * squareSize, squareSize, 7 - r);
  }

  /** A pixel dx across and dy down from a cell's top-left corner, with 0 <= dx < S and
      0 < dy <= S, is mapped to that cell's square: the source's cells reach one pixel
      line below the drawn cell and miss its top line. */
  lemma GetSquareInsideCell(r: int, c: int, dx: int, dy: int, squareSize: int)
    requires squareSize > 0 && Square(r, c).IsValid()
    requires 0 <= dx < squareSize && 0 < dy <= squareSize
    ensures GetSquare((c * squareSize + dx, (7 - r) * squareSize + dy), squareSize) == Some(Square(r, c))
  {
    var y := (7 - r) * squareSize + dy;
    MulSub(7, r, squareSize);
    DivIsFloor(8 * squareSize - y, squareSize, r);
    DivIsFloor(c * squareSize + dx, squareSize, c);
  }

  /** The source yields a square exactly for 0 <= x < 8 * S and 0 < y <= 8 * S: the top
      pixel line of the window is off the board and the line just below it is on it. */
  lemma GetSquareRegion(xy: (int, int), squareSize: int)
    requires squareSize > 0
    ensures GetSquare(xy, squareSize).Some? <==> 0 <= xy.0 < 8 * squareSize && 0 < xy.1 <= 8 * squareSize
  {
    FloorInRange(8 * squareSize - xy.1, squareSize);
    FloorInRange(xy.0, squareSize);
  }

  /** n / S lies in 0..7 exactly when n lies in 0 .. 8 * S - 1. */
  lemma FloorInRange(n: int, s: int)
    requires s > 0
    ensures 0 <= n / s < 8 <==> 0 <= n < 8 * s
  {
    var k, m := n / s, n % s;
    assert n == k * s + m && 0 <= m < s;
    MulMono(0, k, s);
    MulMono(k, 7, s);
    MulMono(k, -1, s);
    MulMono(8, k, s);
  }

  /** At the corner pixel the source returns, it finds the square one row up (none for
      row 7), never the square itself. */
  lemma GetSquareAtCornerIsSquareAbove(square: Square, squareSize: int)
    requires squareSize > 0 && square.IsValid()
    ensures GetSquare(GetCoordinates(square, squareSize), squareSize) ==
      if square.row == 7 then None else Some(Square(square.row + 1, square.column))
    ensures GetSquare(GetCoordinates(square, squareSize), squareSize) != Some(square)
  {
    var c, r := square.column, square.row;
    DivIsFloor((r + 1) * squareSize, squareSize, r + 1);
    DivIsFloor(c * squareSize, squareSize, c);
  }

  /** With the corrected row, each drawn cell, corner included, maps to its own square. */
  lemma GetSquareCorrectedInsideCell(r: int, c: int, dx: int, dy: int, squareSize: int)
    requires squareSize > 0 && Square(r, c).IsValid()
    requires 0 <= dx < squareSize && 0 <= dy < squareSize
    ensures GetSquareCorrected((c * squareSize + dx, (7 - r) * squareSize + dy), squareSize) == Some(Square(r, c))
  {
    var y := (7 - r) * squareSize + dy;
    MulSub(7, r, squareSize);
    DivIsFloor(8 * squareSize - 1 - y, squareSize, r);
    DivIsFloor(c * squareSize + dx, squareSize, c);
  }

  /** The corrected conversion undoes GetCoordinates. */
  lemma GetSquareCorrectedRoundTrip(square: Square, squareSize: int)
    requires squareSize > 0 && square.IsValid()
    ensures GetSquareCorrected(GetCoordinates(square, squareSize), squareSize) == Some(square)
  {
    CoordinatesOnGrid(square, squareSize);
    GetSquareCorrectedInsideCell(square.row, square.column, 0, 0, squareSize);
  }

  /** The corrected conversion yields a square exactly on the window's pixels. */
  lemma GetSquareCorrectedRegion(xy: (int, int), squareSize: int)
    requires squareSize > 0
    ensures GetSquareCorrected(xy, squareSize).Some? <==>
      0 <= xy.0 < 8 * squareSize && 0 <= xy.1 < 8 * squareSize
  {
    FloorInRange(8 * squareSize - 1 - xy.1, squareSize);
    FloorInRange(xy.0, squareSize);
  }
}
