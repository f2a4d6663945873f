/** `get_weather_data` of both programs: it turns one fetched observation into the module globals
    (current temperature, the trend accumulator, wind readings and the two display strings).
    The OpenWeatherMap variant (owm-weatherbot.py) and the National Weather Service variant
    (weatherbot.py) differ in what they read from the observation and in where they can fail. */
module Weather {
  import opened Wrappers
  import opened Numerics
  import opened Trend
  import opened Geometry

  /** 1 shows `actual_str`, anything else `feels_like_str`. */
  const CURRENT_TEMP_DISPLAY: int := 1

  /** What pyowm returns for one place: temperatures in the display scale, and a wind reading in
      mph whose `speed` and `gust` entries may each be absent. */
  datatype OwmObservation = OwmObservation(
    temp: real, feelsLike: real, windSpeed: Option<real>, windGust: Option<real>)

  /** The `value` fields of the NWS "latest observation" document; JSON null is `None`.
      The temperature is in Celsius. */
  datatype NwsObservation = NwsObservation(
    temperature: Option<real>, windSpeed: Option<real>, windGust: Option<real>)

  /** The result of the network step. `OwmFetch(None)`: all ten attempts failed, so `obs` stayed
      `None`. `NwsFetch(None)`: the request or the JSON decoding raised. */
  datatype Fetched =
    | OwmFetch(owm: Option<OwmObservation>)
    | NwsFetch(nws: Option<NwsObservation>)

  /** The reported gust, where one is reported, is not negative. */
  predicate GustNonNegative(f: Fetched)
  {
    match f
    case OwmFetch(Some(o)) => o.windGust.Some? ==> o.windGust.value >= 0.0
    case NwsFetch(Some(o)) => o.windGust.Some? ==> o.windGust.value >= 0.0
    case _ => true
  }

  /** The module globals `get_weather_data` writes, as one value. */
  datatype Globals = Globals(
    currentTemp: real,
    accum: Accum,
    windSpeed: real,
    windGusts: real,
    actualStr: string,
    feelsLikeStr: string,
    feelsLike: real)

  /** Their values when the program starts. */
  const InitialGlobals: Globals := Globals(0.0, Trend.Initial, 0.0, 0.0, " ", " ", 0.0)

  /** `1.8 * c + 32`, which weatherbot.py applies to the NWS temperature. */
  function CelsiusToFahrenheit(c: real): (f: real)
    ensures FahrenheitToCelsius(f) == c
  {
    1.8 * c + 32.0
  }

  function FahrenheitToCelsius(f: real): real
  {
    (f - 32.0) / 1.8
  }

  /** The conversion is strictly increasing, fixes water's freezing and boiling points at 32 and
      212, and is undone by the inverse formula. */
  lemma ConversionFacts(c: real, d: real)
    ensures c < d ==> CelsiusToFahrenheit(c) < CelsiusToFahrenheit(d)
    ensures CelsiusToFahrenheit(0.0) == 32.0 && CelsiusToFahrenheit(100.0) == 212.0
    ensures FahrenheitToCelsius(CelsiusToFahrenheit(c)) == c
    ensures CelsiusToFahrenheit(FahrenheitToCelsius(c)) == c
  {
  }

  /** The string `display_temp_value` writes. */
  function DisplayedLabel(s: Globals): string
  {
    if CURRENT_TEMP_DISPLAY == 1 then s.actualStr else s.feelsLikeStr
  }

  /** Lines shared by both variants once the readings are in: fold the temperature into the
      accumulator and build both strings. */
  function Summarise(s: Globals): (r: Globals)
    ensures r.accum.counter == s.accum.counter + 1 && r.accum.cumulative == s.accum.cumulative + s.currentTemp
    ensures r.accum.average * r.accum.counter as real == r.accum.cumulative
    ensures r.actualStr == Label(r.currentTemp) && r.feelsLikeStr == Label(r.feelsLike)
    ensures r.(accum := s.accum, actualStr := s.actualStr, feelsLikeStr := s.feelsLikeStr) == s
  {
    s.(accum := Accumulate(s.accum, s.currentTemp),
       actualStr := Label(s.currentTemp),
       feelsLikeStr := Label(s.feelsLike))
  }

  /** `get_weather_data` in owm-weatherbot.py. The reset test runs before the observation is used,
      so when every attempt failed the reset has happened and then `obs.temperature` raises. */
  function PollOwm(s: Globals, fetched: Option<OwmObservation>): (r: (Globals, bool))
    ensures r.1 <==> fetched.Some?
    ensures r.1 ==>
      r.0.currentTemp == fetched.value.temp && r.0.feelsLike == fetched.value.feelsLike &&
      r.0.windSpeed == fetched.value.windSpeed.GetOr(0.0) &&
      r.0.windGusts == fetched.value.windGust.GetOr(0.0) &&
      r.0.accum == Record(s.accum, r.0.currentTemp) &&
      r.0.actualStr == Label(r.0.currentTemp) && r.0.feelsLikeStr == Label(r.0.feelsLike)
    ensures !r.1 ==> r.0 == s.(accum := ResetIfDue(s.accum))
  {
    var s0 := s.(accum := ResetIfDue(s.accum));
    match fetched
    case None => (s0, false)
    case Some(o) =>
      (Summarise(s0.(currentTemp := o.temp, feelsLike := o.feelsLike,
                     windSpeed := o.windSpeed.GetOr(0.0), windGusts := o.windGust.GetOr(0.0))), true)
  }

  /** `get_weather_data` in weatherbot.py. A failed request raises before any global changes; a null
      temperature, wind speed or gust raises part-way, after the globals assigned before it. The
      feels-like reading is never assigned, so the stale `feels_like` is formatted again. */
  function PollNws(s: Globals, fetched: Option<NwsObservation>): (r: (Globals, bool))
    ensures fetched.None? ==> r == (s, false)
    ensures r.1 <==>
      fetched.Some? && fetched.value.temperature.Some? &&
      fetched.value.windSpeed.Some? && fetched.value.windGust.Some?
    ensures r.1 ==>
      r.0.currentTemp == CelsiusToFahrenheit(fetched.value.temperature.value) &&
      r.0.windSpeed == fetched.value.windSpeed.value && r.0.windGusts == fetched.value.windGust.value &&
      r.0.accum == Record(s.accum, r.0.currentTemp) &&
      r.0.actualStr == Label(r.0.currentTemp) && r.0.feelsLikeStr == Label(r.0.feelsLike)
    ensures r.0.feelsLike == s.feelsLike
  {
    match fetched
    case None => (s, false)
    case Some(o) =>
      var s0 := s.(accum := ResetIfDue(s.accum));
      if o.temperature.None? then (s0, false)
      else
        var s1 := s0.(currentTemp := CelsiusToFahrenheit(o.temperature.value));
        if o.windSpeed.None? then (s1, false)
        else
          var s2 := s1.(windSpeed := o.windSpeed.value);
          if o.windGust.None? then (s2, false)
          else (Summarise(s2.(windGusts := o.windGust.value)), true)
  }

  /** `get_weather_data` of whichever program fetched f. */
  function Poll(s: Globals, f: Fetched): (r: (Globals, bool))
    ensures r.1 ==> r.0.accum == Record(s.accum, r.0.currentTemp)
  {
    match f
    case OwmFetch(o) => PollOwm(s, o)
    case NwsFetch(o) => PollNws(s, o)
  }

  /** A successful poll is exactly one accumulator step with the new reading, and leaves the label
      strings rendering the new readings; either way the accumulator invariant is kept and a
      failed poll has at most applied the reset. */
  lemma PollRecords(s: Globals, f: Fetched)
    requires Trend.Valid(s.accum)
    ensures var (r, ok) := Poll(s, f);
      Trend.Valid(r.accum) &&
      (ok ==> r.accum == Record(s.accum, r.currentTemp) &&
              1 <= r.accum.counter <= MAX_COUNTER &&
              r.accum.average == r.accum.cumulative / r.accum.counter as real &&
              r.actualStr == Label(r.currentTemp) && r.feelsLikeStr == Label(r.feelsLike)) &&
      (!ok ==> r.accum == s.accum || r.accum == ResetIfDue(s.accum))
  {
  }

  /** OWM: the readings are stored as fetched; a missing gust entry reads as 0.0 (no marker drawn),
      a missing speed entry as 0.0. */
  lemma OwmDefaults(s: Globals, o: OwmObservation)
    ensures var (r, ok) := PollOwm(s, Some(o));
      ok && r.currentTemp == o.temp && r.feelsLike == o.feelsLike &&
      (o.windGust.Some? ==> r.windGusts == o.windGust.value) &&
      (o.windSpeed.Some? ==> r.windSpeed == o.windSpeed.value) &&
      (o.windGust.None? ==> r.windGusts == 0.0) &&
      (o.windSpeed.None? ==> r.windSpeed == 0.0)
  {
  }

  /** OWM: when the fetch is lost after the retries, the only global changed is the reset. */
  lemma OwmLostFetch(s: Globals)
    ensures PollOwm(s, None) == (s.(accum := ResetIfDue(s.accum)), false)
    ensures ResetDue(s.accum.counter) ==> PollOwm(s, None).0.accum.counter == 0
  {
  }

  /** NWS: the displayed temperature is the reported Celsius value converted to Fahrenheit; the
      poll succeeds exactly when all three values are present; and `feels_like` never changes. */
  lemma NwsConversion(s: Globals, o: NwsObservation)
    ensures var (r, ok) := PollNws(s, Some(o));
      (ok <==> o.temperature.Some? && o.windSpeed.Some? && o.windGust.Some?) &&
      (o.temperature.Some? ==> r.currentTemp == CelsiusToFahrenheit(o.temperature.value)) &&
      r.feelsLike == s.feelsLike
  {
  }

  /** NWS: `feels_like` starts at 0 and is never assigned, so after any run of polls from start-up
      the feels-like string of a successful poll is "0F". */
  lemma {:induction false} NwsFeelsLikeStaysZero(fs: seq<Option<NwsObservation>>)
    ensures NwsRun(InitialGlobals, fs).feelsLike == 0.0
    ensures fs != [] && PollNws(NwsRun(InitialGlobals, fs[..|fs| - 1]), fs[|fs| - 1]).1 ==>
      NwsRun(InitialGlobals, fs).feelsLikeStr == "0F"
  {
    if fs != [] {
      NwsFeelsLikeStaysZero(fs[..|fs| - 1]);
      assert Label(0.0) == "0F";
    }
  }

  /** The globals after a run of NWS polls (ignoring that a failed one ends the program). */
  function NwsRun(s: Globals, fs: seq<Option<NwsObservation>>): Globals
  {
    if fs == [] then s else PollNws(NwsRun(s, fs[..|fs| - 1]), fs[|fs| - 1]).0
  }

  /** The globals after a run of OWM polls that all returned an observation. */
  function OwmRun(s: Globals, obs: seq<OwmObservation>): Globals
  {
    if obs == [] then s else PollOwm(OwmRun(s, obs[..|obs| - 1]), Some(obs[|obs| - 1])).0
  }

  function Temps(obs: seq<OwmObservation>): (ts: seq<real>)
    ensures |ts| == |obs| && forall i :: 0 <= i < |obs| ==> ts[i] == obs[i].temp
  {
    seq(|obs|, i requires 0 <= i < |obs| => obs[i].temp)
  }

  /** From start-up, the accumulator after n >= 1 OWM polls holds the last ((n - 1) mod 21) + 1
      temperatures and their exact mean. */
  lemma {:induction false} OwmRunAverage(obs: seq<OwmObservation>)
    requires |obs| >= 1
    ensures var a := OwmRun(InitialGlobals, obs).accum;
      var ts := Temps(obs);
      var w := WindowSize(|obs|);
      a == RecordAll(Trend.Initial, ts) &&
      a.counter == w && a.average == Sum(ts[|ts| - w..]) / w as real
  {
    OwmRunAccum(obs);
    WindowMean(Temps(obs));
  }

  lemma {:induction false} OwmRunAccum(obs: seq<OwmObservation>)
    ensures OwmRun(InitialGlobals, obs).accum == RecordAll(Trend.Initial, Temps(obs))
  {
    if obs != [] {
      var n := |obs|;
      OwmRunAccum(obs[..n - 1]);
      assert Temps(obs)[..n - 1] == Temps(obs[..n - 1]);
    }
  }

  /** The module globals themselves. */
  class WeatherBot {
    var currentTemp: real
    var averageTemp: real
    var averageTempCounter: nat
    var averageTempCumulative: real
    var windSpeed: real
    var windGusts: real
    var actualStr: string
    var feelsLikeStr: string
    var feelsLike: real

    function Snapshot(): Globals
      reads this
    {
      Globals(currentTemp, Accum(averageTempCumulative, averageTempCounter, averageTemp),
              windSpeed, windGusts, actualStr, feelsLikeStr, feelsLike)
    }

    constructor ()
      ensures Snapshot() == InitialGlobals
    {
      currentTemp := 0.0;
      averageTemp := 0.0;
      averageTempCounter := 0;
      averageTempCumulative := 0.0;
      windSpeed := 0.0;
      windGusts := 0.0;
      actualStr := " ";
      feelsLikeStr := " ";
      feelsLike := 0.0;
    }

    /** Reset test, then the averaging and string building shared by both variants. */
    method ResetIfDueInPlace()
      modifies this
      ensures Snapshot() == old(Snapshot()).(accum := ResetIfDue(old(Snapshot()).accum))
    {
      if (averageTempCounter * POLL_INTERVAL) as real / 60.0 > AVG_TEMP_RESET_INTERVAL as real {
        averageTempCumulative := 0.0;
        averageTempCounter := 0;
      }
    }

    method SummariseInPlace()
      modifies this
      ensures Snapshot() == Summarise(old(Snapshot()))
    {
      averageTempCumulative := averageTempCumulative + currentTemp;
      averageTempCounter := averageTempCounter + 1;
      averageTemp := averageTempCumulative / averageTempCounter as real;
      var flStr := IntToString(Trunc(feelsLike));
      actualStr := IntToString(Trunc(currentTemp));
      actualStr := actualStr + TEMP_SCALE;
      feelsLikeStr := flStr + TEMP_SCALE;
    }

    /** `get_weather_data` of owm-weatherbot.py; `ok` is false where the code raises. */
    method GetWeatherDataOwm(fetched: Option<OwmObservation>) returns (ok: bool)
      modifies this
      ensures (Snapshot(), ok) == PollOwm(old(Snapshot()), fetched)
    {
      ResetIfDueInPlace();
      if fetched.None? {
        return false;
      }
      var o := fetched.value;
      currentTemp := o.temp;
      feelsLike := o.feelsLike;
      windSpeed := o.windSpeed.GetOr(0.0);
      windGusts := o.windGust.GetOr(0.0);
      SummariseInPlace();
      ok := true;
    }

    /** `get_weather_data` of weatherbot.py; `ok` is false where the code raises. */
    method GetWeatherDataNws(fetched: Option<NwsObservation>) returns (ok: bool)
      modifies this
      ensures (Snapshot(), ok) == PollNws(old(Snapshot()), fetched)
    {
      if fetched.None? {
        return false;
      }
      var o := fetched.value;
      ResetIfDueInPlace();
      if o.temperature.None? {
        return false;
      }
      currentTemp := CelsiusToFahrenheit(o.temperature.value);
      if o.windSpeed.None? {
        return false;
      }
      windSpeed := o.windSpeed.value;
      if o.windGust.None? {
        return false;
      }
      windGusts := o.windGust.value;
      SummariseInPlace();
      ok := true;
    }

    method GetWeatherData(f: Fetched) returns (ok: bool)
      modifies this
      ensures (Snapshot(), ok) == Poll(old(Snapshot()), f)
    {
      match f
      case OwmFetch(o) => ok := GetWeatherDataOwm(o);
      case NwsFetch(o) => ok := GetWeatherDataNws(o);
    }
  }
}
