/**
 * The alert decision of one polling cycle (cmd/weather-alert/main.go,
 * `checkAndAlert`): a provider error is reported and nothing is sent;
 * otherwise an alert is sent exactly when the window holds at least 50 mm of
 * precipitation or a thunderstorm.
 */
module Alert {
  import opened Wrappers
  import opened Forecast

  /** The precipitation, in millimetres, from which an alert is sent. */
  const ThresholdMM: real := 50.0

  /**
   * What one cycle does: report the provider's error, stay silent, or post
   * an alert naming the window's precipitation. The text of the alert
   * message is not part of this model; its amount is.
   */
  datatype Action = ReportError(error: string) | NoAlert | SendAlert(precipitationMM: real)

  /** The alert condition: heavy rain or a thunderstorm. */
  predicate ShouldAlert(w: WeatherData)
  {
    w.precipitationMM >= ThresholdMM || w.hasThunderstorm
  }

  /** The case split of `checkAndAlert` over what the provider returned. */
  function Decide(forecast: Result<WeatherData, string>): (a: Action)
    ensures a.ReportError? <==> forecast.Failure?
    ensures forecast.Failure? ==> a == ReportError(forecast.error)
    ensures a.SendAlert? <==> forecast.Success? && (forecast.value.precipitationMM >= 50.0 || forecast.value.hasThunderstorm)
    ensures a.SendAlert? ==> a.precipitationMM == forecast.value.precipitationMM
  {
    match forecast
    case Failure(e) => ReportError(e)
    case Success(w) => if ShouldAlert(w) then SendAlert(w.precipitationMM) else NoAlert
  }

  /**
   * One cycle with the Open-Meteo provider: fetch and aggregate, then decide.
   * An alert is sent exactly when the fetch succeeded and the three-hour
   * window holds at least 50 mm or a thunderstorm code.
   */
  method CheckAndAlert(fetched: Result<Hourly, string>, parse: string -> Option<int>, now: int) returns (a: Action)
    ensures a.ReportError? <==> fetched.Failure?
    ensures fetched.Failure? ==> a == ReportError(fetched.error)
    ensures a.SendAlert? <==>
      (fetched.Success? && (WindowSum(fetched.value, parse, now) >= 50.0 || HasThunderInWindow(fetched.value, parse, now)))
    ensures a.SendAlert? ==> a.precipitationMM == WindowSum(fetched.value, parse, now)
  {
    var weather := GetForecast(fetched, parse, now);
    a := Decide(weather);
  }

  /** The cases of the decision's table test: 50.0 alerts, 49.9 does not. */
  lemma AlertCases()
    ensures ShouldAlert(WeatherData(55.0, false)) && ShouldAlert(WeatherData(10.0, true))
    ensures ShouldAlert(WeatherData(60.0, true)) && !ShouldAlert(WeatherData(5.0, false))
    ensures !ShouldAlert(WeatherData(49.9, false)) && ShouldAlert(WeatherData(50.0, false))
  {
  }

  /** More rain, or a thunderstorm where there was none, never withdraws an alert. */
  lemma AlertMonotone(w: WeatherData, w': WeatherData)
    requires ShouldAlert(w)
    requires w'.precipitationMM >= w.precipitationMM && (w.hasThunderstorm ==> w'.hasThunderstorm)
    ensures ShouldAlert(w')
  {
  }

  /** A thunderstorm code at any counted hour of the window triggers an alert. */
  lemma ThunderInWindowAlerts(h: Hourly, parse: string -> Option<int>, now: int, k: int)
    requires ThunderAt(h, parse, now, k)
    ensures Decide(Success(Extract(h, parse, now))).SendAlert?
  {
  }

  /**
   * With non-negative precipitation, a single counted hour of at least 50 mm
   * triggers an alert, whatever the other hours hold.
   */
  lemma HeavyHourAlerts(h: Hourly, parse: string -> Option<int>, now: int, k: nat)
    requires NonNegative(h)
    requires Counted(h, parse, now, k) && k < |h.precipitation| && h.precipitation[k] >= ThresholdMM
    ensures Decide(Success(Extract(h, parse, now))).SendAlert?
  {
    SumAtLeastEntry(h, parse, now, k);
  }

  /**
   * Three hours inside the window with 10, 20 and 25 mm and no thunderstorm
   * code add up to 55 mm, which triggers an alert naming 55 mm.
   */
  lemma HeavyRainScenario(h: Hourly, parse: string -> Option<int>, now: int)
    requires |h.time| == 3 && h.precipitation == [10.0, 20.0, 25.0] && h.weathercode == [61, 63, 65]
    requires forall i :: 0 <= i < 3 ==> parse(h.time[i]) == Some(now + (i + 1) * Hour)
    ensures Decide(Success(Extract(h, parse, now))) == SendAlert(55.0)
  {
  }
}
