# weatherbot core in Dafny

weatherbot is a pair of near-identical Python programs: `owm-weatherbot.py` reads OpenWeatherMap and `weatherbot.py` reads the US National Weather Service. Each polls the weather and drives a 17×7 Scroll pHAT HD LED matrix. The display shows:

- the temperature as a label such as `72F`;
- a trend arrow comparing the reading with a rolling average;
- a wind bar with a gust marker on the bottom row;
- a "Knight Rider" pulse in a small strip, which shows the loop is alive.

This project models the part of both programs that holds state and does arithmetic, and proves properties of it:

- **Trend accumulator** (`trend.dfy`): the globals `average_temp_cumulative`, `average_temp_counter` and `average_temp`. The reset test `counter * POLL_INTERVAL / 60 > AVG_TEMP_RESET_INTERVAL` comes first. Then the sample is added and the average recomputed. The main loop's guarded strict comparison chooses the `draw_temp_trend` argument.
- **Geometry** (`geometry.dfy`, `numerics.dfy`): the wind and gust bar length `min(17, int(17 / MAX_WIND_SPEED * v))`. The label `str(int(t)) + TEMP_SCALE`, with Python's truncating `int` and decimal `str`. The 12- or 17-column clear width.
- **Pixel buffer** (`canvas.dfy`): the driver's 17×7 brightness buffer as a class over an `array2<real>`. It carries `set_pixel`, `clear_rect`, `clear` and the painting half of `write_string`. A ghost frame value (`grid`) is kept equal to the array.
- **Drawing routines** (`renderer.dfy`): `draw_kr_pulse`, `draw_temp_trend`, `draw_wind_line`, `display_temp_value` and the pulse sweep of the main loop. Each is an imperative method proved against a frame function that follows the routine's own driver calls. Lemmas state exactly which pixels each one changes.
- **`get_weather_data`** (`weather.dfy`): the module globals as a class `WeatherBot`, with one method per program. Each program's error paths keep the partial updates the Python code makes before it raises.
- **Scheduler** (`scheduler.dfy`): the start-up sequence and one pass of the `while True` body. The clock reading, the fetch result and the font are parameters.

Temperatures and wind speeds are Dafny `real`s. Equality tests and truncation are therefore exact; Python floats are not.

Points where the code behaves differently from what a reader might expect. The model follows the code in each:

- **Arrow guard.** The comment on the arrow branches (owm-weatherbot.py:376) says no arrow is shown above 100 degrees or below -10 degrees, because the display has no room for it. The guard `t < 100 or t < -9` is just `t < 100`, so readings below -10 still get an arrow. See "## Findings".
- **Clear width.** `display_temp_value` clears the extra digit's worth of columns only from 100 up, as its comment at owm-weatherbot.py:340 says. A four-character negative label such as `-10F` gets the narrow clear. `Geometry.NegativeLabelsStayNarrow` states this.
- **Which average.** The main loop compares the reading with `average_temp` after `get_weather_data` has already folded the reading into it. `Trend.SameSignAsHistory` proves that, while no reset intervenes, this gives the same direction as comparing with the previous average.
- **Rows.** The wind bar is drawn on row 6 and the pulse on row 5 of the 17×7 matrix. The label and the arrow use rows 0-4, and `draw_temp_trend(0)` also clears columns 14-16 of row 5.
- **NWS request.** `weatherbot.py` makes one request per poll. A timeout leaves `conditions` unbound, so decoding raises before any global changes (`Weather.PollNws`).
- **NWS wind units.** `weatherbot.py` scales the NWS wind values against the 75 mph full scale without converting their units. The model does the same.

## Model

| member | source | states |
|---|---|---|
| `Wrappers.Option.GetOr` | owm-weatherbot.py:220-221 | `wind.get(key, 0.0)`: the entry when present, the default when absent |
| `Numerics.Trunc` | owm-weatherbot.py:229 | `int(x)` truncates toward zero: `r <= x < r + 1` for non-negative x, `r - 1 < x <= r` for negative x |
| `Numerics.IntToStringRoundTrip` | owm-weatherbot.py:229-230 | `str(int)` is a sign and a run of digits that parses back to the same integer; the sign appears exactly for negatives |
| `Numerics.NatToStringRoundTrip` | owm-weatherbot.py:230 | the digits of a natural number have no leading zero and parse back to it |
| `Numerics.IntToStringLength` | owm-weatherbot.py:230 | `str(n)` has at most k characters exactly when `-10^(k-1) < n < 10^k` |
| `Trend.ResetDue` | owm-weatherbot.py:207 | with 180 s polls and a 60 min window, the true-division reset test holds exactly when the counter is 21 or more |
| `Trend.ResetIfDue` | owm-weatherbot.py:206-209 | the sum and counter are both zeroed when the reset test holds, and the accumulator is untouched otherwise; afterwards the counter is below 21, so there is room for the next sample; the stored average is kept |
| `Trend.Accumulate` | owm-weatherbot.py:223-226 | one more sample is counted and summed, and the new average times the counter is exactly the sum |
| `Trend.Record` | owm-weatherbot.py:206-226 | after each poll the counter is in 1..21; it is 1 exactly when the reset was due or nothing was recorded; the average is sum / counter; without a reset the counter and sum grow by one sample |
| `Trend.RecordKeepsValid` | owm-weatherbot.py:156-160 | the start-up values meet the accumulator invariant (counter at most 21, zero sum at zero count, exact average), and each poll keeps it |
| `Trend.FreshWindowAverage` | owm-weatherbot.py:224-226 | the first sample after start-up or a reset is its own average, so it classifies as steady |
| `Trend.Classify` | owm-weatherbot.py:376-385 | the direction is falling, steady or rising exactly when the reading is below, equal to or above the average |
| `Trend.SameSignAsHistory` | owm-weatherbot.py:376-387 | with no reset and a prior count of at least 1, comparing the sample with the updated average agrees with comparing it with the previous average |
| `Trend.ArrowGuard` | owm-weatherbot.py:376 | `t < 100 or t < -9` holds exactly when t < 100 |
| `Trend.ArrowChoice` | owm-weatherbot.py:376-387 | an arrow is drawn exactly below 100, and its argument is -1, 0 or 1 as the reading is below, equal to or above the average |
| `Trend.WindowMean` | owm-weatherbot.py:206-226 | from start-up, after n polls the counter is ((n-1) mod 21) + 1 and the average is the mean of exactly that many latest samples |
| `Trend.FallingExample` | owm-weatherbot.py:376-379 | samples 70, 72, 68: prior average 71, updated average 70, arrow -1 |
| `Geometry.BarLength` | owm-weatherbot.py:304-318 | the bar never exceeds 17 pixels, and a non-negative speed never gives a negative length |
| `Geometry.BarLengthRange` | owm-weatherbot.py:304-318 | for a non-negative speed the bar is 0..17 pixels, the truncated scaled speed when below 17, and 17 exactly from full scale up |
| `Geometry.BarLengthMonotone` | owm-weatherbot.py:307-312 | a stronger wind never gives a shorter bar |
| `Geometry.BarLengthZero` | owm-weatherbot.py:313-327 | the length is 0 (no bar, no gust marker) exactly when the reading is under one pixel's worth, 75/17 mph |
| `Geometry.BarLengthExamples` | owm-weatherbot.py:304-318 | 0 mph gives 0; 75 gives 17; 37.5 gives 8; 10 gives 2; 20 gives 4 |
| `Geometry.Label` | owm-weatherbot.py:227-251 | the label has at least one digit and ends in `F`; it starts with a minus sign exactly for readings of -1 or below |
| `Geometry.LabelRoundTrip` | owm-weatherbot.py:229-250 | the label is the truncated reading in decimal followed by `F`, and parses back to it |
| `Geometry.LabelWidth` | owm-weatherbot.py:229-250 | the label has at most three characters exactly when -10 < t < 100 |
| `Geometry.ClearWidth` | owm-weatherbot.py:340-344 | the clear is 12 or 17 columns wide, and 17 exactly when the arrow guard fails |
| `Geometry.NegativeLabelsStayNarrow` | owm-weatherbot.py:376 | at -10 and below the label is four characters long, yet the arrow guard holds and only 12 columns are cleared |
| `Geometry.IntendedGuardFitsLabel` | owm-weatherbot.py:376 | the guard the comment describes, -10 < t < 100, admits exactly the readings whose label has at most three characters; it differs from the guard as written exactly at -10 and below |
| `Canvas.Lit` | owm-weatherbot.py:267 | `set_pixel` changes exactly one pixel, to the given brightness |
| `Canvas.Cleared` | owm-weatherbot.py:265 | `clear_rect` darkens exactly the pixels of the rectangle and keeps the rest |
| `Canvas.Blank` | owm-weatherbot.py:374 | `clear()` darkens every pixel |
| `Canvas.Painted` | owm-weatherbot.py:346 | `write_string` lights exactly the inked pixels at the given brightness |
| `Canvas.Matrix.SetPixel` | owm-weatherbot.py:267 | the buffer after `set_pixel` is `Lit` of the buffer before |
| `Canvas.Matrix.ClearRect` | owm-weatherbot.py:265 | the buffer after `clear_rect` is `Cleared` of the buffer before |
| `Canvas.Matrix.Clear` | owm-weatherbot.py:374 | the buffer after `clear()` is blank |
| `Canvas.Matrix.Paint` | owm-weatherbot.py:346 | the buffer after painting is `Painted` of the buffer before |
| `Renderer.ColumnAt` | owm-weatherbot.py:282-283 | the `for y in range(0, n)` stroke lights rows 0..n-1 of its column and nothing else |
| `Renderer.RowAt` | owm-weatherbot.py:323-324 | the `for x in range(0, n)` stroke lights columns 0..n-1 of its row and nothing else |
| `Renderer.TrendFrame` | owm-weatherbot.py:277-290 | the 17×7 frame `draw_temp_trend(dir)` leaves; its pixels are stated by `Renderer.TrendFrameEffect` |
| `Renderer.TrendFrameEffect` | owm-weatherbot.py:277-290 | 0 darkens columns 14-16 of rows 0-5; 1 lights column 15 rows 0-4 and (14,1), (16,1); -1 lights column 15 rows 0-4 and (14,3), (16,3); other arguments draw nothing; no other pixel changes |
| `Renderer.DrawTempTrend` | owm-weatherbot.py:277-292 | the buffer after `draw_temp_trend(dir)` is `TrendFrame` of the buffer before |
| `Renderer.WindLineFrame` | owm-weatherbot.py:301-328 | the 17×7 frame `draw_wind_line()` leaves; its pixels are stated by `Renderer.WindLineEffect` |
| `Renderer.WindLineEffect` | owm-weatherbot.py:301-328 | row 6 columns [0, wind_calc) take the wind brightness; a non-zero gust_calc puts the gust brightness at column gust_calc-1 over the bar; nothing else changes |
| `Renderer.DrawWindLine` | owm-weatherbot.py:301-328 | the buffer after `draw_wind_line` is `WindLineFrame` of the buffer before |
| `Renderer.PulseFrame` | owm-weatherbot.py:263-267 | the 17×7 frame `draw_kr_pulse(pos)` leaves; its pixels are stated by `Renderer.PulseFrameEffect` |
| `Renderer.PulseFrameEffect` | owm-weatherbot.py:263-267 | after `draw_kr_pulse(pos)` the only lit pixel of row 5 columns 12-16 is (pos+11, 5) at 0.2; nothing outside the strip changes |
| `Renderer.DrawKrPulse` | owm-weatherbot.py:263-271 | the buffer after `draw_kr_pulse` is `PulseFrame` of the buffer before |
| `Renderer.SweepFrame` | owm-weatherbot.py:392-395 | the 17×7 frame a run of pulses leaves; its pixels are stated by `Renderer.SweepFrameEffect` |
| `Renderer.SweepFrameEffect` | owm-weatherbot.py:392-395 | after any non-empty run of pulses the strip shows only the last position and nothing else has changed |
| `Renderer.KrSweepEffect` | owm-weatherbot.py:392-395 | the loop's positions 1,2,3,4,5,4,3,2 keep x within 12..16, and the sweep ends with only (13, 5) lit in the strip |
| `Renderer.KrSweep` | owm-weatherbot.py:392-395 | the two pulse loops leave the buffer as `SweepFrame` over positions 1,2,3,4,5,4,3,2 |
| `Renderer.TempFrame` | owm-weatherbot.py:341-348 | the 17×7 frame `display_temp_value()` leaves; its pixels are stated by `Renderer.TempFrameEffect` |
| `Renderer.TempFrameEffect` | owm-weatherbot.py:341-348 | inked pixels are bright; the rest of columns 0-11 (0-16 from 100 up) of rows 0-4 is dark; every other pixel is unchanged |
| `Renderer.TempFrameIdempotent` | owm-weatherbot.py:341-348 | drawing the same reading twice leaves the same frame as drawing it once |
| `Renderer.DisplayTempValue` | owm-weatherbot.py:337-351 | the buffer after `display_temp_value` is `TempFrame` of the buffer before |
| `Weather.CelsiusToFahrenheit` | weatherbot.py:189-190 | `1.8 * c + 32` is undone by `(f - 32) / 1.8` |
| `Weather.ConversionFacts` | weatherbot.py:189-190 | `1.8 * c + 32` is strictly increasing, maps 0 to 32 and 100 to 212, and is inverted by `(f - 32) / 1.8` |
| `Weather.Summarise` | owm-weatherbot.py:223-251 | one more sample is counted and summed with an exact average; both labels render the current readings; no other global changes |
| `Weather.PollOwm` | owm-weatherbot.py:173-255 | the poll succeeds exactly when an observation arrived; then the temperatures are the observation's, the wind speed and gust are its entries or 0.0 where absent, the accumulator takes one `Record` step and both labels are rebuilt; otherwise only the reset has happened |
| `Weather.PollNws` | weatherbot.py:145-229 | a failed request changes nothing; the poll succeeds exactly when temperature, speed and gust are non-null; then the temperature is converted, the wind speed and gust are the reported values, the accumulator takes one `Record` step and both labels are rebuilt; `feels_like` never changes |
| `Weather.Poll` | owm-weatherbot.py:173-255 | a successful poll of either program is one `Record` step with the new reading |
| `Weather.PollRecords` | owm-weatherbot.py:206-251 | a successful poll is one accumulator step with the new reading, keeps the counter in 1..21 with an exact average, and sets both labels; a failed one at most applies the reset |
| `Weather.OwmDefaults` | owm-weatherbot.py:214-221 | the OWM temperatures are taken as fetched; a present speed or gust entry is stored as fetched, and a missing one reads as 0.0 |
| `Weather.OwmLostFetch` | owm-weatherbot.py:188-214 | when every attempt fails, the reset is the only change before `obs.temperature` raises |
| `Weather.NwsConversion` | weatherbot.py:176-195 | the NWS poll succeeds exactly when temperature, speed and gust are all non-null; the temperature is converted from Celsius; `feels_like` is untouched |
| `Weather.NwsFeelsLikeStaysZero` | weatherbot.py:138-225 | `feels_like` stays 0 over any run of NWS polls, so every successful poll sets `feels_like_str` to "0F" |
| `Weather.OwmRunAverage` | owm-weatherbot.py:206-226 | from start-up, n OWM polls leave the accumulator at the exact mean of the last ((n-1) mod 21) + 1 temperatures |
| `Weather.WeatherBot.constructor` | owm-weatherbot.py:156-166 | the globals start at 0.0, a counter of 0 and `" "` strings |
| `Weather.WeatherBot.ResetIfDueInPlace` | owm-weatherbot.py:206-209 | only the sum and the counter are zeroed, and only when the reset test holds |
| `Weather.WeatherBot.SummariseInPlace` | owm-weatherbot.py:223-251 | the sample is added, the average recomputed and both labels rebuilt |
| `Weather.WeatherBot.GetWeatherDataOwm` | owm-weatherbot.py:173-255 | the new globals and the success flag are `PollOwm` of the old globals |
| `Weather.WeatherBot.GetWeatherDataNws` | weatherbot.py:145-229 | the new globals and the success flag are `PollNws` of the old globals |
| `Scheduler.RefreshPeriod` | owm-weatherbot.py:371 | once `int(t) % 180 == 0` holds at t, it holds at t + k whole seconds exactly when k is a multiple of 180 |
| `Scheduler.TickSpec` | owm-weatherbot.py:370-395 | a refresh runs exactly when `int(t) % 180 == 0`; an idle pass keeps the globals; a crashed pass keeps the display; a pass that polled has the poll's globals |
| `Scheduler.Tick` | owm-weatherbot.py:370-395 | one pass of the loop leaves globals, buffer and outcome as `TickSpec` describes |
| `Scheduler.StartupSpec` | owm-weatherbot.py:361-364 | start-up leaves the globals and success flag of one poll, and a failed poll leaves the display as it was |
| `Scheduler.StartupPicture` | owm-weatherbot.py:361-364 | after a successful start-up the label's ink is bright, the rest of the cleared region is dark, row 6 shows the bar and gust marker over it, and every other pixel is unchanged |
| `Scheduler.Startup` | owm-weatherbot.py:361-364 | start-up polls, shows the label, then draws the wind line, as `StartupSpec` describes |
| `Scheduler.IdleTickOnlyPulses` | weatherbot.py:344-369 | on an idle pass only the pulse strip changes, and it ends with only (13, 5) lit |
| `Scheduler.RefreshTickPicture` | owm-weatherbot.py:370-395 | after a refresh the wind row shows the new bar and gust marker, the pulse row shows only (13, 5), and each pixel of rows 0-4 is bright exactly when the label inks it or it is an arrow pixel for the reading against the new average below 100 |
| `Scheduler.RefreshArrowFollowsHistory` | owm-weatherbot.py:376-387 | mid-window the arrow agrees with a comparison against the previous average; the first reading of a window has the reading as its average and takes the steady branch below 100 |

## Findings

| source | as written | input that shows it | evidently intended | confidence | as-written member | corrected member |
|---|---|---|---|---|---|---|
| owm-weatherbot.py:376 | the arrow guard `current_temp < 100 or current_temp < -9` holds for every reading below 100 | -15.0: the label `-15F` has four characters and the arrow is still drawn | no arrow where the label leaves no room for it (the comment on that line: "not enough room on the display"), that is `-10 < current_temp < 100`, the readings whose label fits in three characters; the closed bound at -10 comes from the label width, since `-10F` is already four characters | medium, not executed | `Geometry.NegativeLabelsStayNarrow` | `Geometry.IntendedGuardFitsLabel` |

The same guard appears in `weatherbot.py` at lines 350, 354 and 358. `Scheduler.Tick` and `Scheduler.TickSpec` model the program as it runs, so they keep the guard as written. `Geometry.IntendedArrowGuard` is the corrected guard. `Geometry.IntendedGuardFitsLabel` proves that it admits exactly the readings with labels of at most three characters, and that it differs from the written guard only at -10 and below.

## Left out

- Network access is not modelled: the pyowm `weather_at_place` call and its ten-attempt retry loop, the urllib3 request and `json.loads`. Only their outcome enters the model, as the `Fetched` parameter: an observation, or the failure the code then hits.
- Driver internals are not modelled: `rotate`, `show` and glyph shapes. The font is a parameter that maps a string to the pixels it inks. The driver's automatic buffer growth for writes outside 17×7 is not modelled either. Every `set_pixel` and `clear_rect` of the program stays inside the buffer, but a five-character label (t <= -100 or t >= 1000) written by `write_string` would run past column 16; `Canvas.Painted` drops such ink instead of growing the buffer.
- Renderer.DrawWindLine: requires a non-negative gust. A negative reported gust would give a negative marker column, which the driver's array would wrap, and this is not modelled.
- Scheduler.Tick: requires a non-negative reported gust, for the same reason.
- Scheduler.Startup: requires a non-negative reported gust, for the same reason.
- Renderer.WindLineFrame, Renderer.WindLineEffect, Scheduler.TickSpec, Scheduler.StartupSpec, Scheduler.StartupPicture, Scheduler.RefreshTickPicture and Scheduler.IdleTickOnlyPulses: require a non-negative gust (`0.0 <= gust` or `GustNonNegative(f)`), for the same reason.
- Scheduler.RefreshTickPicture: assumes the font inks the label only in rows 0-4, as the five-row font3x5 glyphs written at y = 0 do. The font is not modelled, so the lemma cannot establish this.
- `time.sleep` delays and the unbounded `while True` are not modelled, so the shutdown code after the loop is not reached. One pass is modelled with the clock reading as a parameter.
- Setup and plumbing are not modelled: `parse()` and its options, logging and `StreamToLogger`, environment and `.env` settings, `secrets`, and the OWM authentication failure at start-up.
- The `DEBUG` prints are not modelled.
- Unused values are not modelled: the `temperature` display string, `prev_temp`, `wind_chill` and `total_poll_time`.
- Python float rounding is not modelled. Readings are exact reals, so equality between the sample and the average and the truncations are idealised.
