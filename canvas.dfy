/** The LED matrix's pixel buffer: 17 columns by 7 rows of brightness values, and the three
    driver operations the program uses on it (`set_pixel`, `clear_rect`, `clear`) plus the
    painting half of `write_string`. */
module Canvas {

  const Width: int := 17
  const Height: int := 7

  /** A frame of the buffer as a value: `g[x][y]` is the brightness of column x, row y. */
  type Grid = seq<seq<real>>

  predicate IsGrid(g: Grid)
  {
    |g| == Width && forall x :: 0 <= x < Width ==> |g[x]| == Height
  }

  predicate InBounds(x: int, y: int)
  {
    0 <= x < Width && 0 <= y < Height
  }

  predicate InRect(x: int, y: int, x0: int, y0: int, w: int, h: int)
  {
    x0 <= x < x0 + w && y0 <= y < y0 + h
  }

  /** The all-dark frame the driver starts with and `clear()` returns to. */
  function Blank(): (g: Grid)
    ensures IsGrid(g)
    ensures forall x, y :: InBounds(x, y) ==> g[x][y] == 0.0
  {
    seq(Width, x => seq(Height, y => 0.0))
  }

  /** `set_pixel(x, y, b)`. */
  function Lit(g: Grid, x: int, y: int, b: real): (r: Grid)
    requires IsGrid(g) && InBounds(x, y)
    ensures IsGrid(r)
    ensures forall i, j :: InBounds(i, j) ==> r[i][j] == if i == x && j == y then b else g[i][j]
  {
    g[x := g[x][y := b]]
  }

  /** `clear_rect(x0, y0, w, h)`: the part of the rectangle on the display goes dark. */
  function Cleared(g: Grid, x0: int, y0: int, w: int, h: int): (r: Grid)
    requires IsGrid(g)
    ensures IsGrid(r)
    ensures forall i, j :: InBounds(i, j) ==> r[i][j] == if InRect(i, j, x0, y0, w, h) then 0.0 else g[i][j]
  {
    seq(Width, i requires 0 <= i < Width =>
      seq(Height, j requires 0 <= j < Height => if InRect(i, j, x0, y0, w, h) then 0.0 else g[i][j]))
  }

  /** The pixels a string's glyphs light, at brightness b; ink off the display is dropped. */
  function Painted(g: Grid, ink: set<(int, int)>, b: real): (r: Grid)
    requires IsGrid(g)
    ensures IsGrid(r)
    ensures forall i, j :: InBounds(i, j) ==> r[i][j] == if (i, j) in ink then b else g[i][j]
  {
    seq(Width, i requires 0 <= i < Width =>
      seq(Height, j requires 0 <= j < Height => if (i, j) in ink then b else g[i][j]))
  }

  /** Two frames are equal when they agree on every pixel. */
  lemma GridsEqual(a: Grid, b: Grid)
    requires IsGrid(a) && IsGrid(b)
    requires forall x, y :: InBounds(x, y) ==> a[x][y] == b[x][y]
    ensures a == b
  {
    forall x | 0 <= x < Width
      ensures a[x] == b[x]
    {
      assert forall y :: 0 <= y < Height ==> a[x][y] == b[x][y] by {
        forall y | 0 <= y < Height ensures a[x][y] == b[x][y] {
          assert InBounds(x, y);
        }
      }
    }
  }

  /** The display driver's buffer. The ghost `grid` is the frame the array holds. */
  class Matrix {
    var buf: array2<real>
    ghost var grid: Grid

    ghost predicate Valid()
      reads this, buf
    {
      buf.Length0 == Width && buf.Length1 == Height && IsGrid(grid) &&
      forall x, y :: 0 <= x < Width && 0 <= y < Height ==> buf[x, y] == grid[x][y]
    }

    constructor ()
      ensures Valid() && fresh(buf)
      ensures grid == Blank()
    {
      buf := new real[Width, Height]((x, y) => 0.0);
      grid := Blank();
    }

    method SetPixel(x: int, y: int, b: real)
      requires Valid() && InBounds(x, y)
      modifies this, buf
      ensures Valid() && buf == old(buf)
      ensures grid == Lit(old(grid), x, y, b)
    {
      buf[x, y] := b;
      grid := Lit(grid, x, y, b);
    }

    method ClearRect(x0: int, y0: int, w: int, h: int)
      requires Valid()
      modifies this, buf
      ensures Valid() && buf == old(buf)
      ensures grid == Cleared(old(grid), x0, y0, w, h)
    {
      forall i, j | 0 <= i < Width && 0 <= j < Height && InRect(i, j, x0, y0, w, h) {
        buf[i, j] := 0.0;
      }
      grid := Cleared(grid, x0, y0, w, h);
    }

    /** `clear()`: the whole buffer goes dark. */
    method Clear()
      requires Valid()
      modifies this, buf
      ensures Valid() && buf == old(buf)
      ensures grid == Blank()
    {
      forall i, j | 0 <= i < Width && 0 <= j < Height {
        buf[i, j] := 0.0;
      }
      grid := Blank();
    }

    /** The painting done by `write_string`: the font's ink for the text is lit at brightness b. */
    method Paint(ink: set<(int, int)>, b: real)
      requires Valid()
      modifies this, buf
      ensures Valid() && buf == old(buf)
      ensures grid == Painted(old(grid), ink, b)
    {
      forall i, j | 0 <= i < Width && 0 <= j < Height && (i, j) in ink {
        buf[i, j] := b;
      }
      grid := Painted(grid, ink, b);
    }
  }
}
