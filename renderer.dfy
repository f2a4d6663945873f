/** The program's drawing routines (`draw_kr_pulse`, `draw_temp_trend`, `draw_wind_line`,
    `display_temp_value`) and the pulse sweep of the main loop. Each is a method on the
    driver's buffer, proved against a frame function that follows the routine's own sequence of
    driver calls; the lemmas say which pixels each one changes and to what. */
module Renderer {
  import opened Canvas
  import opened Geometry

  const BRIGHT: real := 0.2
  /** Gusts are a single brighter dot ... */
  const GUST_BRIGHTNESS: real := 0.2
  /** ... over a dimmer line for the steady wind. */
  const WIND_BRIGHTNESS: real := 0.1
  /** Brightness of the moving pulse pixel. */
  const PULSE_BRIGHTNESS: real := 0.2
  /** Row 6 is the wind row. */
  const WIND_ROW: int := 6
  /** Row 5, columns 12..16 is the pulse strip. */
  const PULSE_ROW: int := 5

  // --- Strokes built from set_pixel loops ---

  /** `for y in range(0, n): set_pixel(x, y, b)`. */
  function Column(g: Grid, x: int, n: int, b: real): Grid
    requires IsGrid(g) && 0 <= x < Width && 0 <= n <= Height
    decreases n
  {
    if n == 0 then g else Lit(Column(g, x, n - 1, b), x, n - 1, b)
  }

  /** A column stroke lights rows 0..n-1 of column x and nothing else. */
  lemma {:induction false} ColumnAt(g: Grid, x: int, n: int, b: real)
    requires IsGrid(g) && 0 <= x < Width && 0 <= n <= Height
    ensures IsGrid(Column(g, x, n, b))
    ensures forall i, j :: InBounds(i, j) ==>
      Column(g, x, n, b)[i][j] == if i == x && j < n then b else g[i][j]
    decreases n
  {
    if n > 0 {
      ColumnAt(g, x, n - 1, b);
    }
  }

  /** `for x in range(0, n): set_pixel(x, y, b)`. */
  function Row(g: Grid, y: int, n: int, b: real): Grid
    requires IsGrid(g) && 0 <= y < Height && 0 <= n <= Width
    decreases n
  {
    if n == 0 then g else Lit(Row(g, y, n - 1, b), n - 1, y, b)
  }

  /** A row stroke lights columns 0..n-1 of row y and nothing else. */
  lemma {:induction false} RowAt(g: Grid, y: int, n: int, b: real)
    requires IsGrid(g) && 0 <= y < Height && 0 <= n <= Width
    ensures IsGrid(Row(g, y, n, b))
    ensures forall i, j :: InBounds(i, j) ==>
      Row(g, y, n, b)[i][j] == if j == y && i < n then b else g[i][j]
    decreases n
  {
    if n > 0 {
      RowAt(g, y, n - 1, b);
    }
  }

  // --- draw_temp_trend ---

  /** The frame after `draw_temp_trend(dir)`. */
  function TrendFrame(g: Grid, dir: int): (r: Grid)
    requires IsGrid(g)
    ensures IsGrid(r)
  {
    ColumnAt(g, 15, 5, BRIGHT);
    if dir == 0 then Cleared(g, 14, 0, 3, 6)
    else if dir == 1 then Lit(Lit(Column(g, 15, 5, BRIGHT), 14, 1, BRIGHT), 16, 1, BRIGHT)
    else if dir == -1 then Lit(Lit(Column(g, 15, 5, BRIGHT), 14, 3, BRIGHT), 16, 3, BRIGHT)
    else g
  }

  /** Steady: columns 14..16 of rows 0..5 go dark (the clear reaches the pulse row).
      Up: column 15, rows 0..4, plus the wings (14,1) and (16,1) are lit.
      Down: column 15, rows 0..4, plus the wings (14,3) and (16,3) are lit.
      Any other argument draws nothing. No other pixel changes in any case. */
  lemma TrendFrameEffect(g: Grid, dir: int)
    requires IsGrid(g)
    ensures forall x, y :: InBounds(x, y) ==>
      TrendFrame(g, dir)[x][y] ==
        if dir == 0 && 14 <= x <= 16 && y <= 5 then 0.0
        else if dir == 1 && ((x == 15 && y <= 4) || (y == 1 && (x == 14 || x == 16))) then BRIGHT
        else if dir == -1 && ((x == 15 && y <= 4) || (y == 3 && (x == 14 || x == 16))) then BRIGHT
        else g[x][y]
  {
  }

  method DrawTempTrend(m: Matrix, dir: int)
    requires m.Valid()
    modifies m, m.buf
    ensures m.Valid() && m.buf == old(m.buf)
    ensures m.grid == TrendFrame(old(m.grid), dir)
  {
    if dir == 0 {
      m.ClearRect(14, 0, 3, 6);
    } else if dir == 1 {
      for y := 0 to 5
        invariant m.Valid() && m.buf == old(m.buf)
        invariant m.grid == Column(old(m.grid), 15, y, BRIGHT)
      {
        m.SetPixel(15, y, BRIGHT);
      }
      m.SetPixel(14, 1, BRIGHT);
      m.SetPixel(16, 1, BRIGHT);
    } else if dir == -1 {
      for y := 0 to 5
        invariant m.Valid() && m.buf == old(m.buf)
        invariant m.grid == Column(old(m.grid), 15, y, BRIGHT)
      {
        m.SetPixel(15, y, BRIGHT);
      }
      m.SetPixel(14, 3, BRIGHT);
      m.SetPixel(16, 3, BRIGHT);
    }
  }

  // --- draw_wind_line ---

  /** The frame after `draw_wind_line()`: a run of `wind_calc` pixels on row 6, then the gust
      marker at column `gust_calc - 1` when `gust_calc` is non-zero. */
  function WindLineFrame(g: Grid, speed: real, gust: real): (r: Grid)
    requires IsGrid(g) && 0.0 <= gust
    ensures IsGrid(r)
  {
    BarLengthRange(gust);
    var windCalc := BarLength(speed);
    var gustCalc := BarLength(gust);
    var bar := Row(g, WIND_ROW, if windCalc < 0 then 0 else windCalc, WIND_BRIGHTNESS);
    RowAt(g, WIND_ROW, if windCalc < 0 then 0 else windCalc, WIND_BRIGHTNESS);
    if gustCalc != 0 then Lit(bar, gustCalc - 1, WIND_ROW, GUST_BRIGHTNESS) else bar
  }

  /** Row 6 columns [0, wind_calc) are at the wind brightness, except that a non-zero gust_calc puts
      the gust brightness at column gust_calc - 1, drawn last so it wins over the bar; every other
      pixel keeps its value. */
  lemma WindLineEffect(g: Grid, speed: real, gust: real)
    requires IsGrid(g) && 0.0 <= gust
    ensures var windCalc := BarLength(speed);
      var gustCalc := BarLength(gust);
      1 <= gustCalc <= 17 || gustCalc == 0
    ensures var windCalc := BarLength(speed);
      var gustCalc := BarLength(gust);
      forall x, y :: InBounds(x, y) ==>
        WindLineFrame(g, speed, gust)[x][y] ==
          if y == WIND_ROW && gustCalc != 0 && x == gustCalc - 1 then GUST_BRIGHTNESS
          else if y == WIND_ROW && x < windCalc then WIND_BRIGHTNESS
          else g[x][y]
  {
    BarLengthRange(gust);
    var windCalc := BarLength(speed);
    RowAt(g, WIND_ROW, if windCalc < 0 then 0 else windCalc, WIND_BRIGHTNESS);
  }

  /** Requires a non-negative gust: a negative one would put the marker off the left edge. */
  method DrawWindLine(m: Matrix, speed: real, gust: real)
    requires m.Valid() && 0.0 <= gust
    modifies m, m.buf
    ensures m.Valid() && m.buf == old(m.buf)
    ensures m.grid == WindLineFrame(old(m.grid), speed, gust)
  {
    var windCalc := Numerics.Trunc(17.0 / MAX_WIND_SPEED * speed);
    if windCalc > 17 {
      windCalc := 17;
    }
    var gustCalc := Numerics.Trunc(17.0 / MAX_WIND_SPEED * gust);
    if gustCalc > 17 {
      gustCalc := 17;
    }
    BarLengthRange(gust);
    var x := 0;
    while x < windCalc
      invariant 0 <= x && (x <= windCalc || x == 0)
      invariant m.Valid() && m.buf == old(m.buf)
      invariant m.grid == Row(old(m.grid), WIND_ROW, x, WIND_BRIGHTNESS)
    {
      m.SetPixel(x, WIND_ROW, WIND_BRIGHTNESS);
      x := x + 1;
    }
    if gustCalc != 0 {
      m.SetPixel(gustCalc - 1, WIND_ROW, GUST_BRIGHTNESS);
    }
  }

  // --- draw_kr_pulse and the sweep ---

  /** The frame after `draw_kr_pulse(pos, dir)`: the strip is cleared and column pos + 11 lit. */
  function PulseFrame(g: Grid, pos: int): (r: Grid)
    requires IsGrid(g) && 1 <= pos <= 5
    ensures IsGrid(r)
  {
    Lit(Cleared(g, 12, PULSE_ROW, 5, 1), pos + 11, PULSE_ROW, PULSE_BRIGHTNESS)
  }

  /** After a pulse at pos, the only lit pixel of the strip (row 5, columns 12..16) is
      (pos + 11, 5); nothing outside the strip changes. */
  lemma PulseFrameEffect(g: Grid, pos: int)
    requires IsGrid(g) && 1 <= pos <= 5
    ensures forall x, y :: InBounds(x, y) ==>
      PulseFrame(g, pos)[x][y] ==
        if y == PULSE_ROW && 12 <= x <= 16 then (if x == pos + 11 then PULSE_BRIGHTNESS else 0.0)
        else g[x][y]
  {
  }

  /** `dir` only documents the direction of travel; it does not affect what is drawn. */
  method DrawKrPulse(m: Matrix, pos: int, dir: int)
    requires m.Valid() && 1 <= pos <= 5
    modifies m, m.buf
    ensures m.Valid() && m.buf == old(m.buf)
    ensures m.grid == PulseFrame(old(m.grid), pos)
  {
    m.ClearRect(12, PULSE_ROW, 5, 1);
    var x := pos + 11;
    m.SetPixel(x, PULSE_ROW, PULSE_BRIGHTNESS);
  }

  predicate ValidPositions(ps: seq<int>)
  {
    forall i :: 0 <= i < |ps| ==> 1 <= ps[i] <= 5
  }

  /** Pulses drawn one after another at the positions of ps. */
  function SweepFrame(g: Grid, ps: seq<int>): (r: Grid)
    requires IsGrid(g) && ValidPositions(ps)
    ensures IsGrid(r)
  {
    if ps == [] then g else PulseFrame(SweepFrame(g, ps[..|ps| - 1]), ps[|ps| - 1])
  }

  /** The positions the main loop visits each iteration: `range(1, 5)` then `range(5, 1, -1)`. */
  const KrPositions: seq<int> := [1, 2, 3, 4, 5, 4, 3, 2]

  /** After any non-empty sweep the strip shows only the last position's pixel; nothing outside
      the strip changes, however many pulses ran. */
  lemma {:induction false} SweepFrameEffect(g: Grid, ps: seq<int>)
    requires IsGrid(g) && ValidPositions(ps) && ps != []
    ensures forall x, y :: InBounds(x, y) ==>
      SweepFrame(g, ps)[x][y] ==
        if y == PULSE_ROW && 12 <= x <= 16 then (if x == ps[|ps| - 1] + 11 then PULSE_BRIGHTNESS else 0.0)
        else g[x][y]
  {
    var init := ps[..|ps| - 1];
    PulseFrameEffect(SweepFrame(g, init), ps[|ps| - 1]);
    if init != [] {
      SweepFrameEffect(g, init);
    }
  }

  /** The main loop's sweep: every pulse stays inside columns 12..16, and the sweep ends with
      only (13, 5) lit in the strip. */
  lemma KrSweepEffect(g: Grid)
    requires IsGrid(g)
    ensures ValidPositions(KrPositions)
    ensures forall i :: 0 <= i < |KrPositions| ==> 12 <= KrPositions[i] + 11 <= 16
    ensures forall x, y :: InBounds(x, y) ==>
      SweepFrame(g, KrPositions)[x][y] ==
        if y == PULSE_ROW && 12 <= x <= 16 then (if x == 13 then PULSE_BRIGHTNESS else 0.0)
        else g[x][y]
  {
    SweepFrameEffect(g, KrPositions);
  }

  method KrSweep(m: Matrix)
    requires m.Valid()
    modifies m, m.buf
    ensures m.Valid() && m.buf == old(m.buf)
    ensures m.grid == SweepFrame(old(m.grid), KrPositions)
  {
    assert ValidPositions(KrPositions);
    for pulse := 1 to 5
      invariant m.Valid() && m.buf == old(m.buf)
      invariant m.grid == SweepFrame(old(m.grid), KrPositions[..pulse - 1])
    {
      assert KrPositions[..pulse] == KrPositions[..pulse - 1] + [pulse];
      DrawKrPulse(m, pulse, 1);
    }
    var pulse := 5;
    while pulse > 1
      invariant 1 <= pulse <= 5
      invariant m.Valid() && m.buf == old(m.buf)
      invariant m.grid == SweepFrame(old(m.grid), KrPositions[..9 - pulse])
    {
      assert KrPositions[..10 - pulse] == KrPositions[..9 - pulse] + [pulse];
      DrawKrPulse(m, pulse, -1);
      pulse := pulse - 1;
    }
    assert KrPositions[..8] == KrPositions;
  }

  // --- display_temp_value ---

  /** The frame after `display_temp_value()` for a reading t whose label the font inks as `ink`:
      columns 0..11 (or 0..16 from 100 degrees up) of rows 0..4 are cleared, then the ink is lit. */
  function TempFrame(g: Grid, t: real, ink: set<(int, int)>): (r: Grid)
    requires IsGrid(g)
    ensures IsGrid(r)
  {
    Painted(Cleared(g, 0, 0, ClearWidth(t), 5), ink, BRIGHT)
  }

  /** Every pixel of the cleared region not inked is dark, every inked pixel is at the bright
      level, and everything else is as before. */
  lemma TempFrameEffect(g: Grid, t: real, ink: set<(int, int)>)
    requires IsGrid(g)
    ensures forall x, y :: InBounds(x, y) ==>
      TempFrame(g, t, ink)[x][y] ==
        if (x, y) in ink then BRIGHT
        else if y < 5 && x < (if t < 100.0 then 12 else 17) then 0.0
        else g[x][y]
  {
  }

  /** Redrawing the same reading gives the same frame: the clear wipes whatever the first
      drawing left in the region before painting again. */
  lemma {:induction false} TempFrameIdempotent(g: Grid, t: real, ink: set<(int, int)>)
    requires IsGrid(g)
    ensures TempFrame(TempFrame(g, t, ink), t, ink) == TempFrame(g, t, ink)
  {
    var once := TempFrame(g, t, ink);
    TempFrameEffect(g, t, ink);
    TempFrameEffect(once, t, ink);
    GridsEqual(TempFrame(once, t, ink), once);
  }

  method DisplayTempValue(m: Matrix, t: real, ink: set<(int, int)>)
    requires m.Valid()
    modifies m, m.buf
    ensures m.Valid() && m.buf == old(m.buf)
    ensures m.grid == TempFrame(old(m.grid), t, ink)
  {
    if t < 100.0 {
      m.ClearRect(0, 0, 12, 5);
    } else {
      m.ClearRect(0, 0, 17, 5);
    }
    m.Paint(ink, BRIGHT);
  }
}
