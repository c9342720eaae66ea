/** The worker task `fetch_weather_summary`: it asks three weather sources, in a fixed
    order, for the city's temperature, sorts each answer into the successful readings
    or the failed source names, logs every source and raises an alert for every failure,
    and returns either the rounded average or a fixed all-failed error record. */
module Tasks {
  import opened Sinks
  import Text

  /** The sources, in the insertion order of the task's `sources` dictionary. */
  const Sources: seq<string> := ["source1", "source2", "source3"]

  const AllFailedMessage := "All sources failed for this city."
  const ApiFailure := "API Failure"

  /** What asking one source yields: a temperature in degrees Celsius, or the text of
      the exception that the attempt raised. */
  datatype Reading = Temperature(celsius: int) | FetchError(cause: string)

  /** Asking source `s` about city `c` (the first argument is the source name). */
  type Fetcher = (string, string) -> Reading

  /** One source together with what it answered. */
  datatype Outcome = Outcome(source: string, reading: Reading)

  /** The task's return value. The average is kept exactly, as a whole number of
      hundredths of a degree. */
  datatype Summary =
    | AllFailed(error: string)
    | Aggregate(city: string, avgHundredths: int, sourcesUsed: nat, sourcesFailed: seq<string>)

  /** The readings the task collects for `city`, one per source, in source order. */
  function Poll(city: string, fetch: Fetcher): seq<Outcome>
  {
    seq(|Sources|, i requires 0 <= i < |Sources| => Outcome(Sources[i], fetch(Sources[i], city)))
  }

  /** The source's reading as produced by the code: `20 + hash(source + city) % 5`.
      The per-process string hash is a parameter; for the positive divisor 5 Python's
      floored `%` and Dafny's `%` agree. */
  function SimulatedFetch(hash: string -> int): Fetcher
  {
    (source, city) => Temperature(20 + hash(source + city) % 5)
  }

  // ---------------------------------------------------------------------------
  // What the loop accumulates, as functions of the outcomes seen so far

  /** The `results` list: the temperatures of the successful sources, in order. */
  function Temperatures(os: seq<Outcome>): seq<int>
  {
    if os == [] then []
    else
      Temperatures(os[..|os| - 1])
      + match os[|os| - 1].reading
        case Temperature(t) => [t]
        case FetchError(_) => []
  }

  /** The `errors` list: the names of the failed sources, in order. */
  function FailedSources(os: seq<Outcome>): seq<string>
  {
    if os == [] then []
    else
      FailedSources(os[..|os| - 1])
      + if os[|os| - 1].reading.FetchError? then [os[|os| - 1].source] else []
  }

  /** The description of a successful reading, `f"{temperature}°C"`. */
  function SuccessDescription(t: int): string
  {
    Text.IntToDecimal(t) + "\U{B0}C"
  }

  /** The message logged and alerted for a failed source. */
  function FailureMessage(source: string, city: string, cause: string): string
  {
    "Error fetching from " + source + " for city " + city + ": " + cause
  }

  /** The one log event a source's outcome produces. */
  function SourceEvent(city: string, o: Outcome): LogEvent
  {
    match o.reading
    case Temperature(t) => LogEvent(city, o.source, "success", DefaultLevel, SuccessDescription(t))
    case FetchError(cause) => LogEvent(city, o.source, "fail", "error", FailureMessage(o.source, city, cause))
  }

  /** The log events of the outcomes, in order. */
  function Events(city: string, os: seq<Outcome>): seq<LogEvent>
  {
    if os == [] then [] else Events(city, os[..|os| - 1]) + [SourceEvent(city, os[|os| - 1])]
  }

  /** The alerts of the outcomes, in order: one per failed source. */
  function Alerts(city: string, os: seq<Outcome>): seq<Alert>
  {
    if os == [] then []
    else
      Alerts(city, os[..|os| - 1])
      + match os[|os| - 1].reading
        case Temperature(_) => []
        case FetchError(cause) => [Alert(ApiFailure, FailureMessage(os[|os| - 1].source, city, cause))]
  }

  /** The task's return value once every source has been asked. */
  function Summarize(city: string, os: seq<Outcome>): Summary
  {
    var results := Temperatures(os);
    if results == [] then AllFailed(AllFailedMessage)
    else Aggregate(city, AverageHundredths(results), |results|, FailedSources(os))
  }

  // ---------------------------------------------------------------------------
  // The task

  /** `fetch_weather_summary(city)`: returns the summary, and the log events and alerts
      it emits, in emission order. */
  method FetchWeatherSummary(city: string, fetch: Fetcher)
    returns (summary: Summary, log: seq<LogEvent>, alerts: seq<Alert>)
    ensures summary == Summarize(city, Poll(city, fetch))
    ensures log == Events(city, Poll(city, fetch))
    ensures alerts == Alerts(city, Poll(city, fetch))
    ensures |log| == |Sources| && forall k :: 0 <= k < |Sources| ==> log[k].source == Sources[k]
    ensures summary.AllFailed? ==> summary.error == AllFailedMessage && |alerts| == |Sources|
    ensures summary.Aggregate? ==>
      && summary.city == city
      && 1 <= summary.sourcesUsed
      && summary.sourcesUsed + |summary.sourcesFailed| == |Sources|
      && |alerts| == |summary.sourcesFailed|
  {
    ghost var polled := Poll(city, fetch);
    var results: seq<int> := [];
    var errors: seq<string> := [];
    log, alerts := [], [];
    for i := 0 to |Sources|
      invariant results == Temperatures(polled[..i])
      invariant errors == FailedSources(polled[..i])
      invariant log == Events(city, polled[..i])
      invariant alerts == Alerts(city, polled[..i])
    {
      assert polled[..i + 1][..i] == polled[..i];
      var sourceName := Sources[i];
      var reading := fetch(sourceName, city);
      match reading {
        case Temperature(temperature) =>
          log := log + [LogEvent(city, sourceName, "success", DefaultLevel, SuccessDescription(temperature))];
          results := results + [temperature];
        case FetchError(cause) =>
          var msg := FailureMessage(sourceName, city, cause);
          log := log + [LogEvent(city, sourceName, "fail", "error", msg)];
          alerts := alerts + [Alert(ApiFailure, msg)];
          errors := errors + [sourceName];
      }
    }
    assert polled[..|Sources|] == polled;
    EventsPerSource(city, polled);
    AlertsPerFailure(city, polled);
    PartitionCounts(polled);
    if results == [] {
      summary := AllFailed(AllFailedMessage);
      return;
    }
    summary := Aggregate(city, AverageHundredths(results), |results|, errors);
  }

  // ---------------------------------------------------------------------------
  // Averaging

  function Sum(xs: seq<int>): int
  {
    if xs == [] then 0 else xs[0] + Sum(xs[1..])
  }

  /** `n / d` rounded to the nearest integer (a half rounds up). */
  function RoundDiv(n: int, d: int): (r: int)
    requires d > 0
    ensures d * (2 * r - 1) <= 2 * n < d * (2 * r + 1)
  {
    (2 * n + d) / (2 * d)
  }

  /** `round(sum(results) / len(results), 2)`, in hundredths. */
  function AverageHundredths(results: seq<int>): int
    requires |results| > 0
  {
    RoundDiv(100 * Sum(results), |results|)
  }

  lemma {:induction false} SumBounds(xs: seq<int>, lo: int, hi: int)
    requires forall k :: 0 <= k < |xs| ==> lo <= xs[k] <= hi
    ensures |xs| * lo <= Sum(xs) <= |xs| * hi
  {
    if xs != [] {
      SumBounds(xs[1..], lo, hi);
      assert |xs| * lo == (|xs| - 1) * lo + lo;
      assert |xs| * hi == (|xs| - 1) * hi + hi;
    }
  }

  /** The rounded average of readings that all lie in `lo..hi` lies in `100*lo..100*hi`. */
  lemma AverageBounds(results: seq<int>, lo: int, hi: int)
    requires |results| > 0
    requires forall k :: 0 <= k < |results| ==> lo <= results[k] <= hi
    ensures 100 * lo <= AverageHundredths(results) <= 100 * hi
  {
    SumBounds(results, lo, hi);
    RoundedBetween(|results|, Sum(results), AverageHundredths(results), lo, hi);
  }

  /** A nearest integer to `100 * t / n`, where `t` lies in `n*lo..n*hi`, lies in `100*lo..100*hi`. */
  lemma RoundedBetween(n: int, t: int, r: int, lo: int, hi: int)
    requires n > 0 && n * lo <= t <= n * hi
    requires n * (2 * r - 1) <= 2 * (100 * t) < n * (2 * r + 1)
    ensures 100 * lo <= r <= 100 * hi
  {
    assert n * (200 * lo) == 200 * (n * lo) && n * (200 * hi) == 200 * (n * hi);
    // n * (2r - 1) <= 200t <= n * 200hi, so 2r - 1 <= 200hi
    MulLeCancel(n, 2 * r - 1, 200 * hi);
    // n * 200lo <= 200t < n * (2r + 1), so 200lo < 2r + 1
    MulLtCancel(n, 200 * lo, 2 * r + 1);
  }

  lemma MulSign(n: int, x: int)
    requires n > 0
    ensures x > 0 ==> n * x > 0
    ensures x >= 0 ==> n * x >= 0
  {
  }

  lemma MulLeCancel(n: int, a: int, b: int)
    requires n > 0 && n * a <= n * b
    ensures a <= b
  {
    MulSign(n, a - b);
    assert n * a - n * b == n * (a - b);
  }

  lemma MulLtCancel(n: int, a: int, b: int)
    requires n > 0 && n * a < n * b
    ensures a < b
  {
    MulSign(n, a - b);
    assert n * a - n * b == n * (a - b);
  }

  /** `r` is within one half of `num / den`: `|num / den - r| <= 1/2`. */
  predicate WithinHalf(num: int, den: int, r: int) {
    den * (2 * r - 1) <= 2 * num <= den * (2 * r + 1)
  }

  /** `r` is strictly within one half of `num / den`. */
  predicate StrictlyWithinHalf(num: int, den: int, r: int) {
    den * (2 * r - 1) < 2 * num < den * (2 * r + 1)
  }

  /** With one, two or three readings the exact average in hundredths is never a half:
      the rounded value is the unique nearest whole number of hundredths, so Python's
      round-half-to-even and this model's round-half-up agree. */
  lemma NeverHalfway(results: seq<int>)
    requires 1 <= |results| <= 3
    ensures StrictlyWithinHalf(100 * Sum(results), |results|, AverageHundredths(results))
    ensures forall r' :: WithinHalf(100 * Sum(results), |results|, r') ==> r' == AverageHundredths(results)
  {
    UniqueNearest(|results|, 100 * Sum(results), 50 * Sum(results), AverageHundredths(results));
  }

  /** For a divisor of at most 3 and an even numerator, a nearest integer to `s / n` is
      strictly nearer than one half, and no other integer is within one half. */
  lemma UniqueNearest(n: int, s: int, h: int, r: int)
    requires 1 <= n <= 3 && s == 2 * h
    requires WithinHalf(s, n, r)
    ensures StrictlyWithinHalf(s, n, r)
    ensures forall r' :: WithinHalf(s, n, r') ==> r' == r
  {
    NoTie(n, s, h, r);
    forall r' | WithinHalf(s, n, r')
      ensures r' == r
    {
      NearestUnique(n, s, r, r');
    }
  }

  /** Two integers, one strictly within one half of `s / n` and one within one half,
      are the same. */
  lemma NearestUnique(n: int, s: int, r: int, r': int)
    requires n > 0 && StrictlyWithinHalf(s, n, r) && WithinHalf(s, n, r')
    ensures r' == r
  {
    MulLtCancel(n, 2 * r' - 1, 2 * r + 1);
    MulLtCancel(n, 2 * r - 1, 2 * r' + 1);
  }

  /** For a divisor of at most 3 and an even numerator, `s / n` is never a whole number
      plus one half. */
  lemma NoTie(n: int, s: int, h: int, r: int)
    requires 1 <= n <= 3 && s == 2 * h
    requires n * (2 * r - 1) <= 2 * s
    ensures n * (2 * r - 1) < 2 * s
  {
    if n == 1 {
      assert n * (2 * r - 1) == 2 * r - 1;
    } else if n == 2 {
      assert n * (2 * r - 1) == 4 * r - 2;
    } else {
      assert n * (2 * r - 1) == 6 * r - 3;
    }
  }

  // ---------------------------------------------------------------------------
  // Properties of the partition

  /** The indices of the outcomes that failed (`failed`) or succeeded (`!failed`), ascending. */
  function IndicesWhere(os: seq<Outcome>, failed: bool): seq<nat>
  {
    if os == [] then []
    else IndicesWhere(os[..|os| - 1], failed) + if os[|os| - 1].reading.FetchError? == failed then [|os| - 1] else []
  }

  /** The selected indices are in range, strictly ascending, and name exactly the
      outcomes of the selected kind. */
  lemma {:induction false} IndicesWhereSpec(os: seq<Outcome>, failed: bool)
    ensures forall k :: 0 <= k < |IndicesWhere(os, failed)| ==> IndicesWhere(os, failed)[k] < |os|
    ensures forall k, l :: 0 <= k < l < |IndicesWhere(os, failed)| ==>
      IndicesWhere(os, failed)[k] < IndicesWhere(os, failed)[l]
    ensures forall i :: 0 <= i < |os| ==> (i in IndicesWhere(os, failed) <==> os[i].reading.FetchError? == failed)
  {
    if os != [] {
      var init := os[..|os| - 1];
      IndicesWhereSpec(init, failed);
      forall i | 0 <= i < |init| ensures os[i] == init[i] { }
    }
  }

  /** `errors` lists exactly the failed sources, in source order: its k-th entry is the
      source of the k-th failed outcome. */
  lemma {:induction false} FailedSourcesInOrder(os: seq<Outcome>)
    ensures |FailedSources(os)| == |IndicesWhere(os, true)|
    ensures forall k :: 0 <= k < |FailedSources(os)| ==>
      IndicesWhere(os, true)[k] < |os| && FailedSources(os)[k] == os[IndicesWhere(os, true)[k]].source
  {
    IndicesWhereSpec(os, true);
    if os != [] {
      var init := os[..|os| - 1];
      FailedSourcesInOrder(init);
      IndicesWhereSpec(init, true);
      forall i | 0 <= i < |init| ensures os[i] == init[i] { }
    }
  }

  /** `results` lists exactly the successful temperatures, in source order. */
  lemma {:induction false} TemperaturesInOrder(os: seq<Outcome>)
    ensures |Temperatures(os)| == |IndicesWhere(os, false)|
    ensures forall k :: 0 <= k < |Temperatures(os)| ==>
      IndicesWhere(os, false)[k] < |os| && os[IndicesWhere(os, false)[k]].reading == Temperature(Temperatures(os)[k])
  {
    IndicesWhereSpec(os, false);
    if os != [] {
      var init := os[..|os| - 1];
      TemperaturesInOrder(init);
      IndicesWhereSpec(init, false);
      forall i | 0 <= i < |init| ensures os[i] == init[i] { }
    }
  }

  /** Every source lands in exactly one of the two lists. */
  lemma {:induction false} PartitionCounts(os: seq<Outcome>)
    ensures |Temperatures(os)| + |FailedSources(os)| == |os|
  {
    if os != [] {
      PartitionCounts(os[..|os| - 1]);
    }
  }

  /** One log event per source, in source order: successes log status "success" at the
      default level, failures log status "fail" at level "error". */
  lemma {:induction false} EventsPerSource(city: string, os: seq<Outcome>)
    ensures |Events(city, os)| == |os|
    ensures forall k :: 0 <= k < |os| ==>
      && Events(city, os)[k].city == city
      && Events(city, os)[k].source == os[k].source
      && (os[k].reading.Temperature? ==> Events(city, os)[k].status == "success" && Events(city, os)[k].level == DefaultLevel)
      && (os[k].reading.FetchError? ==> Events(city, os)[k].status == "fail" && Events(city, os)[k].level == "error")
  {
    if os != [] {
      var init := os[..|os| - 1];
      EventsPerSource(city, init);
      forall k | 0 <= k < |init| ensures os[k] == init[k] { }
    }
  }

  /** One "API Failure" alert per failed source, naming that source and the city. */
  lemma {:induction false} AlertsPerFailure(city: string, os: seq<Outcome>)
    ensures |Alerts(city, os)| == |FailedSources(os)|
    ensures forall k :: 0 <= k < |Alerts(city, os)| ==>
      && Alerts(city, os)[k].alertType == ApiFailure
      && var prefix := "Error fetching from " + FailedSources(os)[k] + " for city " + city + ": ";
         |prefix| <= |Alerts(city, os)[k].description| && Alerts(city, os)[k].description[..|prefix|] == prefix
  {
    if os != [] {
      AlertsPerFailure(city, os[..|os| - 1]);
    }
  }

  // ---------------------------------------------------------------------------
  // Properties of the result

  /** The all-failed record is returned exactly when no source succeeded, and it
      carries no average. */
  lemma AllFailedIff(city: string, os: seq<Outcome>)
    ensures Summarize(city, os).AllFailed? <==> forall i :: 0 <= i < |os| ==> os[i].reading.FetchError?
    ensures Summarize(city, os).AllFailed? ==> Summarize(city, os) == AllFailed(AllFailedMessage)
  {
    IndicesWhereSpec(os, false);
    TemperaturesInOrder(os);
    if exists i :: 0 <= i < |os| && os[i].reading.Temperature? {
      var i :| 0 <= i < |os| && os[i].reading.Temperature?;
      assert i in IndicesWhere(os, false);
    }
  }

  /** When every source succeeded, nothing is reported failed. */
  lemma {:induction false} NoneFailed(os: seq<Outcome>)
    requires forall i :: 0 <= i < |os| ==> os[i].reading.Temperature?
    ensures FailedSources(os) == []
  {
    if os != [] {
      NoneFailed(os[..|os| - 1]);
    }
  }

  /** When some source succeeded: the city is echoed, the counts add up to the number
      of sources, and the average lies between the lowest and the highest reading. */
  lemma AggregateSpec(city: string, os: seq<Outcome>)
    requires Summarize(city, os).Aggregate?
    ensures Summarize(city, os).city == city
    ensures 1 <= Summarize(city, os).sourcesUsed == |Temperatures(os)|
    ensures Summarize(city, os).sourcesUsed + |Summarize(city, os).sourcesFailed| == |os|
    ensures Summarize(city, os).sourcesFailed == FailedSources(os)
    ensures exists i, j ::
      && 0 <= i < |os| && 0 <= j < |os|
      && os[i].reading.Temperature? && os[j].reading.Temperature?
      && 100 * os[i].reading.celsius <= Summarize(city, os).avgHundredths <= 100 * os[j].reading.celsius
  {
    var results := Temperatures(os);
    PartitionCounts(os);
    TemperaturesInOrder(os);
    var lo := MinIndex(results);
    var hi := MaxIndex(results);
    AverageBounds(results, results[lo], results[hi]);
    var idx := IndicesWhere(os, false);
    assert os[idx[lo]].reading == Temperature(results[lo]);
    assert os[idx[hi]].reading == Temperature(results[hi]);
  }

  /** The position of a smallest element. */
  function MinIndex(xs: seq<int>): (m: nat)
    requires |xs| > 0
    ensures m < |xs| && forall k :: 0 <= k < |xs| ==> xs[m] <= xs[k]
  {
    if |xs| == 1 then 0
    else
      var m := MinIndex(xs[1..]) + 1;
      if xs[0] <= xs[m] then 0 else m
  }

  /** The position of a largest element. */
  function MaxIndex(xs: seq<int>): (m: nat)
    requires |xs| > 0
    ensures m < |xs| && forall k :: 0 <= k < |xs| ==> xs[k] <= xs[m]
  {
    if |xs| == 1 then 0
    else
      var m := MaxIndex(xs[1..]) + 1;
      if xs[0] >= xs[m] then 0 else m
  }

  /** With the simulated fetch no source fails: every reading is in 20..24, all three
      sources are used, none is reported failed and the average is in 20.00..24.00. */
  lemma SimulatedNeverFails(city: string, hash: string -> int)
    ensures var s := Summarize(city, Poll(city, SimulatedFetch(hash)));
      && s.Aggregate?
      && s.sourcesUsed == 3
      && s.sourcesFailed == []
      && 2000 <= s.avgHundredths <= 2400
  {
    var os := Poll(city, SimulatedFetch(hash));
    IndicesWhereSpec(os, true);
    PartitionCounts(os);
    TemperaturesInOrder(os);
    forall i | 0 <= i < |os| ensures os[i].reading.Temperature? { }
    NoneFailed(os);
    var results := Temperatures(os);
    forall k | 0 <= k < |results| ensures 20 <= results[k] <= 24 {
      var i := IndicesWhere(os, false)[k];
      assert os[i].reading == Temperature(20 + hash(Sources[i] + city) % 5);
    }
    AverageBounds(results, 20, 24);
  }
  // ---------------------------------------------------------------------------
  // Worked cases

  /** Three sources answering 20, 21 and 23: the average is 21.33 from three sources. */
  lemma AllThreeSucceed()
    ensures var fetch: Fetcher := (s, c) =>
        if s == "source1" then Temperature(20) else if s == "source2" then Temperature(21) else Temperature(23);
      Summarize("London", Poll("London", fetch)) == Aggregate("London", 2133, 3, [])
  {
    var fetch: Fetcher := (s, c) =>
      if s == "source1" then Temperature(20) else if s == "source2" then Temperature(21) else Temperature(23);
    var os := Poll("London", fetch);
    var a := [Outcome("source1", Temperature(20))];
    var b := a + [Outcome("source2", Temperature(21))];
    assert os == b + [Outcome("source3", Temperature(23))];
    assert os[..2] == b && b[..1] == a && a[..0] == [];
    assert Temperatures(a) == [20] && FailedSources(a) == [];
    assert Temperatures(b) == [20, 21] && FailedSources(b) == [];
  }

  /** Two sources answering 19 and 20 and the third failing: 19.50 from two sources,
      with the third reported failed. */
  lemma OneSourceFails()
    ensures var fetch: Fetcher := (s, c) =>
        if s == "source1" then Temperature(19) else if s == "source2" then Temperature(20) else FetchError("timeout");
      Summarize("Tokyo", Poll("Tokyo", fetch)) == Aggregate("Tokyo", 1950, 2, ["source3"])
  {
    var fetch: Fetcher := (s, c) =>
      if s == "source1" then Temperature(19) else if s == "source2" then Temperature(20) else FetchError("timeout");
    var os := Poll("Tokyo", fetch);
    var a := [Outcome("source1", Temperature(19))];
    var b := a + [Outcome("source2", Temperature(20))];
    assert os == b + [Outcome("source3", FetchError("timeout"))];
    assert os[..2] == b && b[..1] == a && a[..0] == [];
    assert Temperatures(a) == [19] && FailedSources(a) == [];
    assert Temperatures(b) == [19, 20] && FailedSources(b) == [];
  }

  /** Every source failing: the all-failed record. */
  lemma EverySourceFails()
    ensures Summarize("Paris", Poll("Paris", (s, c) => FetchError("timeout"))) == AllFailed(AllFailedMessage)
  {
    AllFailedIff("Paris", Poll("Paris", (s, c) => FetchError("timeout")));
  }
}
