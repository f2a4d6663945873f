/** The rolling-average accumulator behind the temperature trend arrow. */
module Trend {
  import opened Wrappers

  /** Weather polling interval, in seconds. */
  const POLL_INTERVAL: int := 180
  /** Minutes after which the average is restarted. */
  const AVG_TEMP_RESET_INTERVAL: int := 60
  /** The largest counter value the defaults allow (see `ResetDue`). */
  const MAX_COUNTER: nat := 21

  /** The three module globals `average_temp_cumulative`, `average_temp_counter`, `average_temp`. */
  datatype Accum = Accum(cumulative: real, counter: nat, average: real)

  /** Their values at process start. */
  const Initial: Accum := Accum(0.0, 0, 0.0)

  /** `counter * POLL_INTERVAL / 60 > AVG_TEMP_RESET_INTERVAL`, with Python 3's true division.
      With 180-second polls and a 60-minute window it fires once more than 20 samples are held. */
  predicate ResetDue(counter: nat): (due: bool)
    ensures due <==> counter >= MAX_COUNTER
  {
    (counter * POLL_INTERVAL) as real / 60.0 > AVG_TEMP_RESET_INTERVAL as real
  }

  /** Zero the sum and the counter when the window is over; the stored average is left as it was. */
  function ResetIfDue(a: Accum): (r: Accum)
    ensures r.counter < MAX_COUNTER
    ensures r.average == a.average
    ensures !ResetDue(a.counter) ==> r == a
    ensures ResetDue(a.counter) ==> r.counter == 0 && r.cumulative == 0.0
  {
    if ResetDue(a.counter) then a.(cumulative := 0.0, counter := 0) else a
  }

  /** Add one sample and recompute the average. */
  function Accumulate(a: Accum, sample: real): (r: Accum)
    ensures r.counter == a.counter + 1 && r.cumulative == a.cumulative + sample
    ensures r.average * r.counter as real == r.cumulative
  {
    var sum := a.cumulative + sample;
    var n := a.counter + 1;
    Accum(sum, n, sum / n as real)
  }

  /** One poll's worth of accumulator work: the reset test, then the new sample. */
  function Record(a: Accum, sample: real): (r: Accum)
    ensures 1 <= r.counter <= MAX_COUNTER
    ensures r.average == r.cumulative / r.counter as real
    ensures r.counter == 1 <==> ResetDue(a.counter) || a.counter == 0
    ensures !ResetDue(a.counter) ==> r.counter == a.counter + 1 && r.cumulative == a.cumulative + sample
  {
    Accumulate(ResetIfDue(a), sample)
  }

  /** The invariant the accumulator keeps between polls. */
  predicate Valid(a: Accum)
  {
    a.counter <= MAX_COUNTER &&
    (a.counter == 0 ==> a.cumulative == 0.0) &&
    (a.counter > 0 ==> a.average == a.cumulative / a.counter as real)
  }

  /** Each poll keeps the invariant, which the start-up values already meet. */
  lemma RecordKeepsValid(a: Accum, sample: real)
    requires Valid(a)
    ensures Valid(Initial)
    ensures Valid(Record(a, sample))
  {
  }

  /** The first sample of a window is its own average. */
  lemma FreshWindowAverage(a: Accum, sample: real)
    requires ResetDue(a.counter) || a.counter == 0
    requires a.counter == 0 ==> a.cumulative == 0.0
    ensures Record(a, sample).average == sample
    ensures Classify(sample, Record(a, sample).average) == Steady
  {
  }

  /** The arrow direction: a strict three-way comparison of a sample with an average. */
  datatype Direction = Falling | Steady | Rising
  {
    /** The argument the main loop passes to `draw_temp_trend`. */
    function Code(): int
    {
      match this
      case Falling => -1
      case Steady => 0
      case Rising => 1
    }
  }

  function Classify(sample: real, average: real): (d: Direction)
    ensures d == Falling <==> sample < average
    ensures d == Steady <==> sample == average
    ensures d == Rising <==> average < sample
  {
    if sample < average then Falling else if sample == average then Steady else Rising
  }

  /** With no reset and at least one earlier sample, comparing the sample with the freshly updated
      average gives the same answer as comparing it with the average before the update: the new
      sample moves the average towards itself but never past it. */
  lemma SameSignAsHistory(a: Accum, sample: real)
    requires a.counter >= 1 && a.average == a.cumulative / a.counter as real
    requires !ResetDue(a.counter)
    ensures Classify(sample, Record(a, sample).average) == Classify(sample, a.average)
  {
    var n := a.counter as real;
    var r := Record(a, sample);
    assert r.cumulative == a.cumulative + sample && r.counter as real == n + 1.0;
    assert r.average * (n + 1.0) == a.cumulative + sample;
    assert a.average * n == a.cumulative;
    // The gap to the new average is the gap to the old one scaled by n / (n + 1).
    assert (sample - r.average) * (n + 1.0) == (sample - a.average) * n;
  }

  /** The main loop's guard `t < 100 or t < -9`: it only ever excludes readings of 100 or more. */
  predicate ArrowGuard(t: real): (shown: bool)
    ensures shown <==> t < 100.0
  {
    t < 100.0 || t < -9.0
  }

  /** The three guarded branches of the main loop: which `draw_temp_trend` argument, if any, is
      used. An arrow is drawn exactly when the reading is below 100, and then it is -1, 0 or 1 as
      the reading is below, equal to or above the average. */
  function ArrowChoice(current: real, average: real): (r: Option<int>)
    ensures r.Some? <==> current < 100.0
    ensures r.Some? ==> r.value == Classify(current, average).Code()
  {
    if current < average && ArrowGuard(current) then Some(-1)
    else if current == average && ArrowGuard(current) then Some(0)
    else if current > average && ArrowGuard(current) then Some(1)
    else None
  }

  // --- Runs of polls ---

  /** The accumulator after recording each sample of `xs` in turn. */
  function RecordAll(a: Accum, xs: seq<real>): Accum
  {
    if xs == [] then a else Record(RecordAll(a, xs[..|xs| - 1]), xs[|xs| - 1])
  }

  function Sum(xs: seq<real>): real
  {
    if xs == [] then 0.0 else Sum(xs[..|xs| - 1]) + xs[|xs| - 1]
  }

  /** How many of the first n samples since start-up are in the current window: windows hold 21 samples. */
  function WindowSize(n: nat): nat
    requires n >= 1
  {
    (n - 1) % MAX_COUNTER + 1
  }

  /** The window size grows by one per poll and starts over after 21. */
  lemma WindowStep(n: nat)
    requires n >= 2
    ensures WindowSize(n) == if WindowSize(n - 1) == MAX_COUNTER then 1 else WindowSize(n - 1) + 1
  {
  }

  /** From start-up, after n >= 1 polls the average is the mean of exactly the last
      ((n - 1) mod 21) + 1 samples: the windows are consecutive blocks of 21 polls. */
  lemma {:induction false} WindowMean(xs: seq<real>)
    requires |xs| >= 1
    ensures var a := RecordAll(Initial, xs);
      var w := WindowSize(|xs|);
      a.counter == w &&
      a.cumulative == Sum(xs[|xs| - w..]) &&
      a.average == Sum(xs[|xs| - w..]) / w as real
  {
    var n := |xs|;
    var prefix := xs[..n - 1];
    var p := RecordAll(Initial, prefix);
    assert RecordAll(Initial, xs) == Record(p, xs[n - 1]);
    if n == 1 {
      assert p == Initial;
      assert xs[0..] == xs;
      assert Sum(xs) == Sum(xs[..0]) + xs[0];
    } else {
      WindowMean(prefix);
      var wp := WindowSize(n - 1);
      assert p.counter == wp && p.cumulative == Sum(prefix[n - 1 - wp..]);
      WindowStep(n);
      if wp == MAX_COUNTER {
        assert xs[n - 1..] == [xs[n - 1]];
        assert Sum([xs[n - 1]]) == Sum([]) + xs[n - 1];
      } else {
        var win := xs[n - (wp + 1)..];
        assert win[..|win| - 1] == prefix[n - 1 - wp..];
        assert win[|win| - 1] == xs[n - 1];
        assert Sum(win) == Sum(win[..|win| - 1]) + win[|win| - 1];
      }
    }
  }

  /** An example: samples 70, 72 and 68 from start-up. The third sample's prior average is 71,
      the updated one 70, and the arrow points down either way. */
  lemma FallingExample()
    ensures var a2 := Record(Record(Initial, 70.0), 72.0);
      a2.average == 71.0 &&
      Record(a2, 68.0).average == 70.0 &&
      ArrowChoice(68.0, Record(a2, 68.0).average) == Some(-1)
  {
  }
}
