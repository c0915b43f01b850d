/**
 * The forecast side of the weather alert: the Open-Meteo provider's
 * aggregation of the hourly series into a three-hour window
 * (cmd/weather-alert/main.go, `fetchOpenMeteoForecast` and `GetForecast`).
 *
 * Instants are integers counting nanoseconds, the unit of Go's `time.Duration`.
 * Parsing a timestamp with the layout "2006-01-02T15:04" is the parameter
 * `parse`, which yields `None` where `time.Parse` returns an error.
 */
module Forecast {
  import opened Wrappers

  /** One hour in nanoseconds (`time.Hour`). */
  const Hour: int := 3_600_000_000_000

  /** The look-ahead of the window: `3 * time.Hour`. */
  const Lookahead: int := 3 * Hour

  /** The snapshot a provider returns (`WeatherData`). */
  datatype WeatherData = WeatherData(precipitationMM: real, hasThunderstorm: bool)

  /** The decoded `hourly` object of the forecast response: three parallel arrays. */
  datatype Hourly = Hourly(time: seq<string>, precipitation: seq<real>, weathercode: seq<int>)

  /** `t.After(now) && !t.After(now + 3h)`: the window `(now, now + 3h]`. */
  predicate InWindow(t: int, now: int)
  {
    now < t <= now + Lookahead
  }

  /** Weather codes 95 to 99 are thunderstorms. */
  predicate IsThunderCode(code: int)
  {
    95 <= code <= 99
  }

  /** Entry `i` exists, its timestamp parses, and the instant lies in the window. */
  predicate Counted(h: Hourly, parse: string -> Option<int>, now: int, i: int)
  {
    0 <= i < |h.time| && parse(h.time[i]).Some? && InWindow(parse(h.time[i]).value, now)
  }

  /** What entry `i` adds to the sum: its precipitation when counted and present, else nothing. */
  function Contribution(h: Hourly, parse: string -> Option<int>, now: int, i: int): real
  {
    if Counted(h, parse, now, i) && i < |h.precipitation| then h.precipitation[i] else 0.0
  }

  /** The sum of the contributions of the entries `lo .. hi-1`. */
  function SumRange(h: Hourly, parse: string -> Option<int>, now: int, lo: nat, hi: nat): real
    requires lo <= hi
    decreases hi - lo
  {
    if lo == hi then 0.0 else SumRange(h, parse, now, lo, hi - 1) + Contribution(h, parse, now, hi - 1)
  }

  /** The precipitation of the window: the sum over every entry of the series. */
  function WindowSum(h: Hourly, parse: string -> Option<int>, now: int): real
  {
    SumRange(h, parse, now, 0, |h.time|)
  }

  /** Entry `i` is counted and carries a thunderstorm weather code. */
  predicate ThunderAt(h: Hourly, parse: string -> Option<int>, now: int, i: int)
  {
    Counted(h, parse, now, i) && i < |h.weathercode| && IsThunderCode(h.weathercode[i])
  }

  /** Some entry before index `n` is a thunderstorm in the window. */
  predicate ThunderUpTo(h: Hourly, parse: string -> Option<int>, now: int, n: int)
  {
    exists i :: 0 <= i < n && ThunderAt(h, parse, now, i)
  }

  /** Some entry of the series is a thunderstorm in the window. */
  predicate HasThunderInWindow(h: Hourly, parse: string -> Option<int>, now: int)
  {
    ThunderUpTo(h, parse, now, |h.time|)
  }

  /** The snapshot the provider reports for a decoded series at instant `now`. */
  function Extract(h: Hourly, parse: string -> Option<int>, now: int): WeatherData
  {
    WeatherData(WindowSum(h, parse, now), HasThunderInWindow(h, parse, now))
  }

  /**
   * The loop of `fetchOpenMeteoForecast`: walk the timestamps, skip those that
   * do not parse, and for those in the window add the precipitation (when the
   * precipitation array reaches that far) and raise the sticky thunder flag
   * (when the weather-code array reaches that far and the code is 95..99).
   */
  method Aggregate(h: Hourly, parse: string -> Option<int>, now: int) returns (precipSum: real, thunder: bool)
    ensures precipSum == WindowSum(h, parse, now)
    ensures thunder <==> exists i :: 0 <= i < |h.time| && ThunderAt(h, parse, now, i)
  {
    precipSum, thunder := 0.0, false;
    var cutoff := now + Lookahead;
    for i := 0 to |h.time|
      invariant precipSum == SumRange(h, parse, now, 0, i)
      invariant thunder <==> ThunderUpTo(h, parse, now, i)
    {
      var t := parse(h.time[i]);
      if t.None? {
        continue;
      }
      if t.value > now && !(t.value > cutoff) {
        if i < |h.precipitation| {
          precipSum := precipSum + h.precipitation[i];
        }
        if i < |h.weathercode| {
          var code := h.weathercode[i];
          if code >= 95 && code <= 99 {
            thunder := true;
            assert ThunderAt(h, parse, now, i);
          }
        }
      }
    }
  }

  /**
   * `OpenMeteoProvider.GetForecast`: `fetched` is the outcome of the HTTP GET,
   * the body read and the JSON decoding. Any error there is returned as is;
   * otherwise the series is aggregated.
   */
  method GetForecast(fetched: Result<Hourly, string>, parse: string -> Option<int>, now: int)
    returns (r: Result<WeatherData, string>)
    ensures fetched.Failure? ==> r == Failure(fetched.error)
    ensures fetched.Success? ==> r.Success?
    ensures fetched.Success? ==> r.value.precipitationMM == WindowSum(fetched.value, parse, now)
    ensures fetched.Success? ==> (r.value.hasThunderstorm <==> HasThunderInWindow(fetched.value, parse, now))
  {
    match fetched
    case Failure(e) =>
      r := Failure(e);
    case Success(h) =>
      var precipSum, thunder := Aggregate(h, parse, now);
      r := Success(WeatherData(precipSum, thunder));
  }

  // ---------------------------------------------------------------------------
  // Properties of the window aggregation
  // ---------------------------------------------------------------------------

  /** The sum over a range is the sum over its two halves. */
  lemma {:induction false} SumRangeSplit(h: Hourly, parse: string -> Option<int>, now: int, lo: nat, mid: nat, hi: nat)
    requires lo <= mid <= hi
    ensures SumRange(h, parse, now, lo, hi) == SumRange(h, parse, now, lo, mid) + SumRange(h, parse, now, mid, hi)
    decreases hi - mid
  {
    if mid < hi {
      SumRangeSplit(h, parse, now, lo, mid, hi - 1);
    }
  }

  /** A range whose entries contribute nothing sums to zero. */
  lemma {:induction false} SumRangeZero(h: Hourly, parse: string -> Option<int>, now: int, lo: nat, hi: nat)
    requires lo <= hi
    requires forall i :: lo <= i < hi ==> Contribution(h, parse, now, i) == 0.0
    ensures SumRange(h, parse, now, lo, hi) == 0.0
    decreases hi - lo
  {
    if lo < hi {
      SumRangeZero(h, parse, now, lo, hi - 1);
    }
  }

  /**
   * The window is `(now, now + 3h]`: an entry that parses to `now` is not
   * counted, one that parses to `now + 3h` is, one a nanosecond later is not.
   */
  lemma WindowBounds(h: Hourly, parse: string -> Option<int>, now: int, i: int)
    requires 0 <= i < |h.time|
    ensures parse(h.time[i]) == Some(now) ==> !Counted(h, parse, now, i)
    ensures parse(h.time[i]) == Some(now + Lookahead) ==> Counted(h, parse, now, i)
    ensures parse(h.time[i]) == Some(now + Lookahead + 1) ==> !Counted(h, parse, now, i)
  {
  }

  /**
   * The hourly timestamps around `now` (one hour before, `now`, one to three
   * hours after, four hours after): only the first to third hours after
   * `now` are counted.
   */
  lemma WindowHours(now: int)
    ensures !InWindow(now - Hour, now) && !InWindow(now, now)
    ensures InWindow(now + Hour, now) && InWindow(now + 2 * Hour, now) && InWindow(now + 3 * Hour, now)
    ensures !InWindow(now + 4 * Hour, now)
  {
  }

  /** Thunderstorm codes are exactly 95..99: 94 and 100 are not. */
  lemma ThunderCodes(code: int)
    ensures IsThunderCode(code) <==> code in {95, 96, 97, 98, 99}
    ensures !IsThunderCode(94) && !IsThunderCode(100) && !IsThunderCode(0) && !IsThunderCode(1)
  {
  }

  /**
   * An entry whose timestamp does not parse adds nothing, and every other
   * entry is still processed: the result is the aggregate of the entries
   * before it plus that of the entries after it.
   */
  lemma UnparsableEntrySkipped(h: Hourly, parse: string -> Option<int>, now: int, k: nat)
    requires k < |h.time| && parse(h.time[k]).None?
    ensures WindowSum(h, parse, now) == SumRange(h, parse, now, 0, k) + SumRange(h, parse, now, k + 1, |h.time|)
    ensures HasThunderInWindow(h, parse, now) <==> exists i :: 0 <= i < |h.time| && i != k && ThunderAt(h, parse, now, i)
  {
    SumRangeSplit(h, parse, now, 0, k, |h.time|);
    SumRangeSplit(h, parse, now, k, k + 1, |h.time|);
  }

  /**
   * Timestamps beyond the end of the precipitation array add nothing: the
   * sum is that of the entries the precipitation array covers.
   */
  lemma MissingPrecipitationIgnored(h: Hourly, parse: string -> Option<int>, now: int)
    requires |h.precipitation| <= |h.time|
    ensures WindowSum(h, parse, now) == SumRange(h, parse, now, 0, |h.precipitation|)
  {
    SumRangeSplit(h, parse, now, 0, |h.precipitation|, |h.time|);
    SumRangeZero(h, parse, now, |h.precipitation|, |h.time|);
  }

  /** Timestamps beyond the end of the weather-code array never raise the thunder flag. */
  lemma MissingCodesIgnored(h: Hourly, parse: string -> Option<int>, now: int)
    requires |h.weathercode| <= |h.time|
    ensures HasThunderInWindow(h, parse, now) <==> ThunderUpTo(h, parse, now, |h.weathercode|)
  {
  }

  /** A series with no entry in the window (an empty one in particular) yields `{0, false}`. */
  lemma EmptyWindow(h: Hourly, parse: string -> Option<int>, now: int)
    requires forall i :: 0 <= i < |h.time| ==> !Counted(h, parse, now, i)
    ensures Extract(h, parse, now) == WeatherData(0.0, false)
  {
    SumRangeZero(h, parse, now, 0, |h.time|);
  }

  /** Every precipitation value is non-negative. */
  predicate NonNegative(h: Hourly)
  {
    forall i :: 0 <= i < |h.precipitation| ==> h.precipitation[i] >= 0.0
  }

  /**
   * With non-negative precipitation the running sum of the loop never
   * decreases: the sum over a longer prefix is at least that over a shorter one.
   */
  lemma {:induction false} SumMonotone(h: Hourly, parse: string -> Option<int>, now: int, n: nat, m: nat)
    requires NonNegative(h) && n <= m
    ensures SumRange(h, parse, now, 0, n) <= SumRange(h, parse, now, 0, m)
    decreases m - n
  {
    if n < m {
      SumMonotone(h, parse, now, n, m - 1);
    }
  }

  /** Once the thunder flag is raised it stays raised for the rest of the series. */
  lemma ThunderSticky(h: Hourly, parse: string -> Option<int>, now: int, n: int, m: int)
    requires n <= m && ThunderUpTo(h, parse, now, n)
    ensures ThunderUpTo(h, parse, now, m)
  {
  }

  /** With non-negative precipitation the reported amount is never negative. */
  lemma SumNonNegative(h: Hourly, parse: string -> Option<int>, now: int)
    requires NonNegative(h)
    ensures WindowSum(h, parse, now) >= 0.0
  {
    SumMonotone(h, parse, now, 0, |h.time|);
  }

  /** With non-negative precipitation the reported amount is at least any one counted entry's. */
  lemma SumAtLeastEntry(h: Hourly, parse: string -> Option<int>, now: int, k: nat)
    requires NonNegative(h) && k < |h.time|
    ensures WindowSum(h, parse, now) >= Contribution(h, parse, now, k)
  {
    SumRangeSplit(h, parse, now, 0, k, |h.time|);
    SumRangeSplit(h, parse, now, k, k + 1, |h.time|);
    SumMonotone(h, parse, now, 0, k);
    SumRangeNonNegative(h, parse, now, k + 1, |h.time|);
  }

  /** With non-negative precipitation every range sums to a non-negative amount. */
  lemma {:induction false} SumRangeNonNegative(h: Hourly, parse: string -> Option<int>, now: int, lo: nat, hi: nat)
    requires NonNegative(h) && lo <= hi
    ensures SumRange(h, parse, now, lo, hi) >= 0.0
    decreases hi - lo
  {
    if lo < hi {
      SumRangeNonNegative(h, parse, now, lo, hi - 1);
    }
  }
}
