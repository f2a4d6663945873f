/** Turning readings into display geometry: wind and gust bar lengths, the temperature label and
    the width of the region cleared before the label is redrawn. */
module Geometry {
  import opened Numerics
  import Trend

  /** Temperature scale letter appended to labels. */
  const TEMP_SCALE: string := "F"
  /** Wind speed that fills the whole 17-pixel bar: 75 mph on the Fahrenheit scale, 100 km/h otherwise. */
  const MAX_WIND_SPEED: real := if TEMP_SCALE == "F" then 75.0 else 100.0
  /** Number of pixels across the display. */
  const BAR_PIXELS: int := 17

  /** `int(17.0 / MAX_WIND_SPEED * v)`, then capped at 17; there is no lower cap.
      `draw_wind_line` computes both `wind_calc` and `gust_calc` this way. */
  function BarLength(v: real): (n: int)
    ensures n <= BAR_PIXELS
    ensures 0.0 <= v ==> 0 <= n
  {
    var n := Trunc(17.0 / MAX_WIND_SPEED * v);
    if n > BAR_PIXELS then BAR_PIXELS else n
  }

  /** For a non-negative speed the bar is 0..17 pixels long and equals the truncated scaled speed
      unless that exceeds 17; full scale and beyond give exactly 17. */
  lemma BarLengthRange(v: real)
    requires 0.0 <= v
    ensures 0 <= BarLength(v) <= BAR_PIXELS
    ensures BarLength(v) as real <= 17.0 / MAX_WIND_SPEED * v
    ensures BarLength(v) < BAR_PIXELS ==> 17.0 / MAX_WIND_SPEED * v < BarLength(v) as real + 1.0
    ensures v >= MAX_WIND_SPEED <==> BarLength(v) == BAR_PIXELS
  {
  }

  /** The bar never gets shorter when the wind picks up. */
  lemma BarLengthMonotone(u: real, v: real)
    requires u <= v
    ensures BarLength(u) <= BarLength(v)
  {
  }

  /** A zero length (no bar, no gust marker) means the reading is under one pixel's worth,
      MAX_WIND_SPEED / 17, in either direction. */
  lemma BarLengthZero(v: real)
    ensures BarLength(v) == 0 <==> -MAX_WIND_SPEED / 17.0 < v < MAX_WIND_SPEED / 17.0
  {
  }

  /** Sample readings: calm, full scale, half scale (8.5 pixels truncates to 8), 10 and 20 mph. */
  lemma BarLengthExamples()
    ensures BarLength(0.0) == 0 && BarLength(75.0) == 17 && BarLength(37.5) == 8
    ensures BarLength(10.0) == 2 && BarLength(20.0) == 4
  {
  }

  /** `str(int(t)) + TEMP_SCALE`, the text of `actual_str` and `feels_like_str`. */
  function Label(t: real): (s: string)
    ensures |s| >= 2 && s[|s| - 1] == 'F'
    ensures s[0] == '-' <==> t <= -1.0
  {
    IntToStringRoundTrip(Trunc(t));
    TruncThresholds(t, -1);
    IntToString(Trunc(t)) + TEMP_SCALE
  }

  /** The label is the truncated reading written in decimal, followed by the scale letter. */
  lemma LabelRoundTrip(t: real)
    ensures var s := Label(t);
      |s| >= 2 && s[|s| - 1] == 'F' &&
      var digits := s[..|s| - 1];
      (digits[0] == '-' || IsDigit(digits[0])) &&
      (forall i :: 0 < i < |digits| ==> IsDigit(digits[i])) &&
      ParseInt(digits) == Trunc(t)
  {
    IntToStringRoundTrip(Trunc(t));
    assert Label(t)[..|Label(t)| - 1] == IntToString(Trunc(t));
  }

  /** The label has at most three characters (two digits, or a minus and one digit, plus the
      scale letter) exactly when -10 < t < 100. */
  lemma LabelWidth(t: real)
    ensures |Label(t)| <= 3 <==> -10.0 < t < 100.0
  {
    IntToStringLength(Trunc(t), 2);
    assert Pow10(2) == 100 && Pow10(1) == 10;
    TruncThresholds(t, 100);
    TruncThresholds(t, -10);
  }

  /** Columns cleared before the label is redrawn: 12 below 100 degrees, else 17. The wide clear
      is used exactly when the main loop's guard suppresses the trend arrow, so the arrow columns
      14..16 are wiped only on ticks that draw no arrow. */
  function ClearWidth(t: real): (w: int)
    ensures w == 12 || w == 17
    ensures w == 17 <==> !Trend.ArrowGuard(t)
  {
    if t < 100.0 then 12 else 17
  }

  /** Readings of -10 or below get a four-character label, yet the code still draws the arrow and
      clears only the narrow region: negative readings are never treated as wide. */
  lemma NegativeLabelsStayNarrow(t: real)
    requires t <= -10.0
    ensures |Label(t)| >= 4
    ensures ClearWidth(t) == 12 && Trend.ArrowGuard(t)
  {
    LabelWidth(t);
  }

  /** The guard the comment on the main loop's arrow branches describes: no arrow above 100 or
      below -10 degrees, where the label leaves no room for it. */
  predicate IntendedArrowGuard(t: real)
  {
    -10.0 < t < 100.0
  }

  /** The intended guard admits exactly the readings whose label has at most three characters,
      and it differs from the guard as written exactly at -10 degrees and below. */
  lemma IntendedGuardFitsLabel(t: real)
    ensures IntendedArrowGuard(t) <==> |Label(t)| <= 3
    ensures Trend.ArrowGuard(t) && !IntendedArrowGuard(t) <==> t <= -10.0
  {
    LabelWidth(t);
  }
}
