/** The main program: the start-up refresh and one pass of the `while True` loop. The clock
    reading, the fetched observation and the font are parameters; sleeps are not modelled. */
module Scheduler {
  import opened Wrappers
  import opened Numerics
  import opened Trend
  import opened Geometry
  import opened Canvas
  import opened Renderer
  import opened Weather

  /** How a loop pass ended: no refresh due, refreshed, or `get_weather_data` raised (which ends
      the program, since nothing in the loop catches it). */
  datatype Outcome = Idle | Refreshed | Crashed

  /** `not (int(time.time()) % POLL_INTERVAL)`. Python's `%` and Dafny's agree for a positive
      divisor: both give a remainder in 0..POLL_INTERVAL-1. */
  predicate RefreshDue(t: real)
  {
    Trunc(t) % POLL_INTERVAL == 0
  }

  /** The trend step of a refresh: the guarded three-way branch of the main loop. */
  function ArrowStep(g: Grid, s: Globals): (r: Grid)
    requires IsGrid(g)
    ensures IsGrid(r)
  {
    match ArrowChoice(s.currentTemp, s.accum.average)
    case Some(dir) => TrendFrame(g, dir)
    case None => g
  }

  /** The frame a refresh draws from the new globals: `clear()`, the wind line, the guarded trend
      arrow, then the temperature label. */
  function RefreshFrame(s: Globals, font: string -> set<(int, int)>): (r: Grid)
    requires 0.0 <= s.windGusts
    ensures IsGrid(r)
  {
    var g1 := WindLineFrame(Blank(), s.windSpeed, s.windGusts);
    TempFrame(ArrowStep(g1, s), s.currentTemp, font(DisplayedLabel(s)))
  }

  /** The globals, the frame and the outcome after one pass of the loop at clock reading t. A
      refresh runs exactly when the truncated clock is a multiple of the poll interval; an idle
      pass leaves the globals alone, a crashed one leaves the display alone, and the globals of a
      pass that polled are those of the poll. */
  function TickSpec(s: Globals, g: Grid, t: real, f: Fetched, font: string -> set<(int, int)>)
    : (r: (Globals, Grid, Outcome))
    requires IsGrid(g) && GustNonNegative(f)
    ensures IsGrid(r.1)
    ensures r.2 != Idle <==> Trunc(t) % POLL_INTERVAL == 0
    ensures r.2 == Idle ==> r.0 == s
    ensures r.2 == Crashed ==> r.1 == g && Poll(s, f) == (r.0, false)
    ensures r.2 == Refreshed ==> Poll(s, f) == (r.0, true)
  {
    if !RefreshDue(t) then (s, SweepFrame(g, KrPositions), Idle)
    else
      var (s', ok) := Poll(s, f);
      if !ok then (s', g, Crashed)
      else
        PolledGust(s, f);
        (s', SweepFrame(RefreshFrame(s', font), KrPositions), Refreshed)
  }

  /** A successful poll leaves a non-negative gust when the observation reported one. */
  lemma PolledGust(s: Globals, f: Fetched)
    requires GustNonNegative(f) && Poll(s, f).1
    ensures 0.0 <= Poll(s, f).0.windGusts
  {
  }

  /** One pass of the `while True` body. */
  method Tick(bot: WeatherBot, m: Matrix, t: real, f: Fetched, font: string -> set<(int, int)>)
    returns (outcome: Outcome)
    requires m.Valid() && GustNonNegative(f)
    modifies bot, m, m.buf
    ensures m.Valid() && m.buf == old(m.buf)
    ensures (bot.Snapshot(), m.grid, outcome) == TickSpec(old(bot.Snapshot()), old(m.grid), t, f, font)
  {
    if Trunc(t) % POLL_INTERVAL == 0 {
      ghost var s := bot.Snapshot();
      var ok := bot.GetWeatherData(f);
      if !ok {
        return Crashed;
      }
      PolledGust(s, f);
      m.Clear();
      DrawWindLine(m, bot.windSpeed, bot.windGusts);
      if bot.currentTemp < bot.averageTemp && (bot.currentTemp < 100.0 || bot.currentTemp < -9.0) {
        DrawTempTrend(m, -1);
      } else if bot.currentTemp == bot.averageTemp && (bot.currentTemp < 100.0 || bot.currentTemp < -9.0) {
        DrawTempTrend(m, 0);
      } else if bot.currentTemp > bot.averageTemp && (bot.currentTemp < 100.0 || bot.currentTemp < -9.0) {
        DrawTempTrend(m, 1);
      }
      DisplayTempValue(m, bot.currentTemp, font(DisplayedLabel(bot.Snapshot())));
      outcome := Refreshed;
    } else {
      outcome := Idle;
    }
    KrSweep(m);
  }

  /** The start-up sequence before the loop: poll, show the label, draw the wind line. */
  function StartupSpec(s: Globals, g: Grid, f: Fetched, font: string -> set<(int, int)>)
    : (r: (Globals, Grid, bool))
    requires IsGrid(g) && GustNonNegative(f)
    ensures IsGrid(r.1)
    ensures (r.0, r.2) == Poll(s, f)
    ensures !r.2 ==> r.1 == g
  {
    var (s', ok) := Poll(s, f);
    if !ok then (s', g, false)
    else
      PolledGust(s, f);
      (s', WindLineFrame(TempFrame(g, s'.currentTemp, font(DisplayedLabel(s'))), s'.windSpeed, s'.windGusts), true)
  }

  method Startup(bot: WeatherBot, m: Matrix, f: Fetched, font: string -> set<(int, int)>)
    returns (ok: bool)
    requires m.Valid() && GustNonNegative(f)
    modifies bot, m, m.buf
    ensures m.Valid() && m.buf == old(m.buf)
    ensures (bot.Snapshot(), m.grid, ok) == StartupSpec(old(bot.Snapshot()), old(m.grid), f, font)
  {
    ghost var s := bot.Snapshot();
    ok := bot.GetWeatherData(f);
    if !ok {
      return;
    }
    PolledGust(s, f);
    DisplayTempValue(m, bot.currentTemp, font(DisplayedLabel(bot.Snapshot())));
    DrawWindLine(m, bot.windSpeed, bot.windGusts);
  }

  // --- Properties of a loop pass ---

  /** From a refresh at clock reading t, later whole-second readings refresh again exactly every
      POLL_INTERVAL seconds. */
  lemma RefreshPeriod(t: real, k: int)
    requires 0.0 <= t && 0 <= k && RefreshDue(t)
    ensures RefreshDue(t + k as real) <==> k % POLL_INTERVAL == 0
  {
    var a := Trunc(t);
    assert Trunc(t + k as real) == a + k;
    assert a == (a / POLL_INTERVAL) * POLL_INTERVAL;
    assert (a + k) % POLL_INTERVAL == k % POLL_INTERVAL;
  }

  /** On an idle pass only the pulse strip changes, and it ends with just (13, 5) lit. */
  lemma IdleTickOnlyPulses(s: Globals, g: Grid, t: real, f: Fetched, font: string -> set<(int, int)>)
    requires IsGrid(g) && GustNonNegative(f)
    requires !RefreshDue(t)
    ensures var (s', g', o) := TickSpec(s, g, t, f, font);
      o == Idle && s' == s &&
      forall x, y :: InBounds(x, y) ==>
        g'[x][y] == if y == PULSE_ROW && 12 <= x <= 16 then (if x == 13 then PULSE_BRIGHTNESS else 0.0) else g[x][y]
  {
    KrSweepEffect(g);
  }

  /** Pixels of the up (1) and down (-1) arrows. */
  predicate ArrowPixel(dir: int, x: int, y: int)
  {
    (dir == 1 || dir == -1) &&
    ((x == 15 && 0 <= y <= 4) || (y == (if dir == 1 then 1 else 3) && (x == 14 || x == 16)))
  }

  /** After a refresh pass, provided the font inks the label only in rows 0..4 (font3x5 glyphs are
      five rows tall and written at y = 0): the wind row shows the bar and gust marker for the new
      readings on a dark row; the pulse strip shows only (13, 5) and the rest of row 5 is dark;
      and each pixel of rows 0..4 is bright exactly when the label inks it or it belongs to the
      arrow, which is drawn for the new reading against the new average when the reading is below
      100. Where the label reaches columns 14..16 (a four-character label, from 100 up or at -10
      and below) its ink and the arrow share those columns. */
  lemma RefreshTickPicture(s: Globals, g: Grid, t: real, f: Fetched, font: string -> set<(int, int)>)
    requires IsGrid(g) && GustNonNegative(f)
    requires TickSpec(s, g, t, f, font).2 == Refreshed
    requires var s' := TickSpec(s, g, t, f, font).0;
      forall p :: p in font(DisplayedLabel(s')) ==> p.1 < 5
    ensures var (s', g', _) := TickSpec(s, g, t, f, font);
      var windCalc := BarLength(s'.windSpeed);
      var gustCalc := BarLength(s'.windGusts);
      var ink := font(DisplayedLabel(s'));
      (forall x :: 0 <= x < Width ==>
        g'[x][WIND_ROW] ==
          if gustCalc != 0 && x == gustCalc - 1 then GUST_BRIGHTNESS
          else if x < windCalc then WIND_BRIGHTNESS
          else 0.0) &&
      (forall x :: 0 <= x < Width ==>
        g'[x][PULSE_ROW] == if x == 13 then PULSE_BRIGHTNESS else 0.0) &&
      (forall x, y :: 0 <= x < Width && 0 <= y < 5 ==>
        g'[x][y] ==
          if (x, y) in ink then BRIGHT
          else if s'.currentTemp < 100.0 && ArrowPixel(Classify(s'.currentTemp, s'.accum.average).Code(), x, y)
          then BRIGHT else 0.0)
  {
    var s' := TickSpec(s, g, t, f, font).0;
    PolledGust(s, f);
    var g1 := WindLineFrame(Blank(), s'.windSpeed, s'.windGusts);
    WindLineEffect(Blank(), s'.windSpeed, s'.windGusts);
    var g2 := ArrowStep(g1, s');
    var dir := Classify(s'.currentTemp, s'.accum.average).Code();
    TrendFrameEffect(g1, dir);
    var ink := font(DisplayedLabel(s'));
    var g3 := TempFrame(g2, s'.currentTemp, ink);
    TempFrameEffect(g2, s'.currentTemp, ink);
    KrSweepEffect(g3);
  }

  /** After a successful start-up: pixels the label inks are bright; the rest of the cleared region
      (columns 0..11, or 0..16 from 100 up, of rows 0..4) is dark; on the wind row the gust marker
      and then the bar are drawn over that; every other pixel keeps its value. A failed start-up
      leaves the display as it was. */
  lemma StartupPicture(s: Globals, g: Grid, f: Fetched, font: string -> set<(int, int)>)
    requires IsGrid(g) && GustNonNegative(f)
    ensures var (s', g', ok) := StartupSpec(s, g, f, font);
      ok ==>
        var windCalc := BarLength(s'.windSpeed);
        var gustCalc := BarLength(s'.windGusts);
        var ink := font(DisplayedLabel(s'));
        forall x, y :: InBounds(x, y) ==>
          g'[x][y] ==
            if y == WIND_ROW && gustCalc != 0 && x == gustCalc - 1 then GUST_BRIGHTNESS
            else if y == WIND_ROW && x < windCalc then WIND_BRIGHTNESS
            else if (x, y) in ink then BRIGHT
            else if y < 5 && x < ClearWidth(s'.currentTemp) then 0.0
            else g[x][y]
  {
    var (s', ok) := Poll(s, f);
    if ok {
      PolledGust(s, f);
      var ink := font(DisplayedLabel(s'));
      var g1 := TempFrame(g, s'.currentTemp, ink);
      TempFrameEffect(g, s'.currentTemp, ink);
      WindLineEffect(g1, s'.windSpeed, s'.windGusts);
    }
  }

  /** The arrow of a refresh against the history. Mid-window, comparing the reading with the
      updated average points the same way as comparing it with the average before the reading.
      On the first reading after start-up or a reset, the average is the reading itself and, below
      100 degrees, the steady branch `draw_temp_trend(0)` is taken. */
  lemma RefreshArrowFollowsHistory(s: Globals, f: Fetched)
    requires Trend.Valid(s.accum) && Poll(s, f).1
    ensures var s' := Poll(s, f).0;
      var c := s'.currentTemp;
      (s.accum.counter >= 1 && !ResetDue(s.accum.counter) ==>
        ArrowChoice(c, s'.accum.average) ==
          if c < 100.0 then Some(Classify(c, s.accum.average).Code()) else None) &&
      (s.accum.counter == 0 || ResetDue(s.accum.counter) ==>
        s'.accum.average == c &&
        ArrowChoice(c, s'.accum.average) == if c < 100.0 then Some(0) else None)
  {
    var s' := Poll(s, f).0;
    var c := s'.currentTemp;
    PollRecords(s, f);
    if s.accum.counter >= 1 && !ResetDue(s.accum.counter) {
      SameSignAsHistory(s.accum, c);
    } else {
      FreshWindowAverage(s.accum, c);
    }
  }
}
