# Weather alert: forecast window and alert decision

A Dafny model of the decision core of the `weather-alert` command. Every
polling cycle it fetches an hourly forecast from Open-Meteo (three parallel
arrays: timestamps, precipitation in millimetres, weather codes), aggregates
the hours in the window `(now, now + 3h]`, and posts an alert when that window
holds at least 50 mm of precipitation or a thunderstorm (weather code 95 to 99).

- `wrappers.dfy` — `Option` (a timestamp that did or did not parse) and
  `Result` (a value or a Go `error`).
- `forecast.dfy` — module `Forecast`: the `WeatherData` snapshot, the decoded
  `Hourly` series, the aggregation loop of `fetchOpenMeteoForecast` as the
  method `Aggregate`, proved against the specification functions `WindowSum`
  (a sum over per-entry contributions) and `HasThunderInWindow` (an
  existential over the entries), `GetForecast`, and lemmas about the window.
- `alert.dfy` — module `Alert`: the decision of `checkAndAlert` as the pure
  function `Decide` over the provider's result, the whole cycle with the
  Open-Meteo provider as `CheckAndAlert`, and lemmas connecting the
  aggregation to the decision.

Instants are integers counting nanoseconds, the unit of Go's `time.Duration`,
so the window's length is `3 * 3_600_000_000_000`. Parsing a timestamp with
the layout `"2006-01-02T15:04"` is a parameter `parse: string -> Option<int>`
whose `None` stands for the error `time.Parse` returns; `now` (from
`time.Now().UTC()`) is a parameter too. The outcome of the HTTP request, body
read and JSON decoding is a parameter `fetched: Result<Hourly, string>`.

In the code, `main` calls `checkAndAlert` once before it first waits on the
ticker (cmd/weather-alert/main.go:50-53), so the first cycle runs at startup,
not after the first interval; the scheduling loop itself is not modelled.

## Model

| member | source | states |
|---|---|---|
| `Forecast.Aggregate` | cmd/weather-alert/main.go:132-150 | The returned sum is the sum, over every entry whose timestamp parses into `(now, now+3h]`, of its precipitation when the precipitation array reaches that index; the thunder flag is true exactly when some such entry has a weather code (within the code array) in 95..99 |
| `Forecast.GetForecast` | cmd/weather-alert/main.go:105-131 | A fetch or decode error is returned unchanged; otherwise the snapshot holds the window's precipitation sum and thunder flag |
| `Forecast.WindowBounds` | cmd/weather-alert/main.go:133-139 | An entry that parses to exactly `now` is not counted, one that parses to exactly `now + 3h` is, and one a nanosecond later is not |
| `Forecast.WindowHours` | cmd/weather-alert/main_test.go:73-85 | Of the hours from one before `now` to four after, exactly the first, second and third hour after `now` are in the window |
| `Forecast.ThunderCodes` | cmd/weather-alert/main_test.go:103-117 | A code is a thunderstorm iff it is one of 95..99; 0, 1, 94 and 100 are not |
| `Forecast.UnparsableEntrySkipped` | cmd/weather-alert/main.go:135-138 | An entry whose timestamp fails to parse adds nothing: the sum is that of the entries before it plus that of the entries after it, and the flag is raised iff some other entry raises it |
| `Forecast.MissingPrecipitationIgnored` | cmd/weather-alert/main.go:140-142 | When the precipitation array is shorter than the timestamps, the sum equals the sum over the entries it covers: later entries add nothing and cause no error |
| `Forecast.MissingCodesIgnored` | cmd/weather-alert/main.go:143-148 | When the weather-code array is shorter than the timestamps, only entries it covers can raise the thunder flag |
| `Forecast.EmptyWindow` | cmd/weather-alert/main.go:134-151 | A series with no entry in the window (in particular an empty series) yields precipitation 0 and no thunderstorm |
| `Forecast.SumMonotone` | cmd/weather-alert/main.go:141 | With non-negative precipitation the running sum over a longer prefix is at least the sum over a shorter one |
| `Forecast.ThunderSticky` | cmd/weather-alert/main.go:145-147 | Once some prefix has raised the thunder flag, every longer prefix has it raised |
| `Forecast.SumNonNegative` | cmd/weather-alert/main_test.go:180-184 | With non-negative precipitation the reported amount is never negative |
| `Forecast.SumAtLeastEntry` | cmd/weather-alert/main.go:139-142 | With non-negative precipitation the reported amount is at least the contribution of any single entry |
| `Alert.Decide` | cmd/weather-alert/main.go:60-71 | A provider error is reported and nothing is sent; otherwise an alert naming the snapshot's precipitation is sent iff precipitation >= 50 or a thunderstorm is forecast |
| `Alert.CheckAndAlert` | cmd/weather-alert/main.go:56-72 | Over a whole cycle: an error is reported iff the fetch failed, and it is the fetch's own error; an alert is sent iff the fetch succeeded and the window holds at least 50 mm or a thunderstorm code, and it names the window's sum |
| `Alert.AlertCases` | cmd/weather-alert/main_test.go:17-52 | The table test's cases: 55 mm, thunder at 10 mm, and 60 mm with thunder alert; 5 mm and 49.9 mm do not; exactly 50.0 mm does |
| `Alert.AlertMonotone` | cmd/weather-alert/main.go:66 | More precipitation, or a thunderstorm added, never withdraws an alert |
| `Alert.ThunderInWindowAlerts` | cmd/weather-alert/main.go:143-147 | A thunderstorm code at any counted hour makes the decision send an alert, whatever the precipitation |
| `Alert.HeavyHourAlerts` | cmd/weather-alert/main.go:139-142 | With non-negative precipitation, one counted hour of at least 50 mm makes the decision send an alert |
| `Alert.HeavyRainScenario` | cmd/weather-alert/main.go:139-142 | An illustrative series: three hours in the window with 10, 20 and 25 mm and no thunderstorm code are summed to 55 mm, the amount of the table test's heavy-rain case, and the decision sends an alert naming 55 mm |

## Left out

- The HTTP GET, body read and JSON decoding of `fetchOpenMeteoForecast` (cmd/weather-alert/main.go:114-131): network I/O and library decoding; their outcome is the parameter `fetched`, and any error there is passed through.
- The internals of `time.Parse` and `time.Now()`: library code; they are the parameters `parse` and `now`.
- `sendAlert` (cmd/weather-alert/main.go:154-169): an HTTP POST with a status check and a 512-byte body excerpt; the model stops at the decision `SendAlert`, and a failed post changes nothing in a cycle.
- `main`'s ticker loop and the 30-second `context.WithTimeout` per cycle: timing and cancellation.
- `loadConfig`: reading environment variables and parsing floats and durations.
- The text of the alert message and its `%.1f` formatting: `SendAlert` carries the amount only.
- Float64 arithmetic: precipitation is `real`, so rounding in the sum and in the comparison with 50 is not modelled.
- The zero-valued `WeatherData` that `GetForecast` returns beside an error: the model returns only the error, which is all `checkAndAlert` looks at.
- `AucklandProvider`, which only returns a "not implemented" error, and the test file's `MockProvider`: `Decide` covers any provider's result, including an error.
