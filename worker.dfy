/**
 * The rules inside one iteration of the simulated background worker: which
 * iterations spike the AQI, the simulated CO₂ forecast offset per trend, and
 * the alert raised for a WARNING or CRITICAL reading. The risk score and
 * safety bands are the analytics pipeline's, which the worker repeats.
 *
 * The random draws are parameters; the ranges the worker draws them from
 * appear only as preconditions of the lemmas that are about those ranges.
 */
module Worker {
  import opened Common
  import opened Analytics

  datatype Trend = Increasing | Stable | Decreasing

  datatype AlertType = HighPollution | GeneralRisk

  datatype SystemAlert = SystemAlert(alertType: AlertType, severity: Safety, resolved: bool)

  datatype Reading = Reading(riskScore: real, safety: Safety, alert: Option<SystemAlert>)

  /** Every tenth iteration after the first draws its AQI from the spike range. */
  function IsSpike(iteration: nat): (b: bool)
    ensures b <==> exists k: nat :: k >= 1 && iteration == 10 * k
  {
    if iteration % 10 == 0 && iteration > 0 then
      assert iteration == 10 * (iteration / 10);
      true
    else
      false
  }

  /** The simulated 30-minute forecast: five ppm up, five down, or half a ppm up when stable. */
  function PredictedCo2(co2: real, trend: Trend): (p: real)
    ensures trend == Increasing ==> p == co2 + 5.0
    ensures trend == Decreasing ==> p == co2 - 5.0
    ensures trend == Stable ==> p == co2 + 0.5
  {
    co2 + (if trend == Increasing then 5.0 else if trend == Decreasing then -5.0 else 0.5)
  }

  /** The forecasts are ordered by trend and never move more than five ppm. */
  lemma ForecastOrderedByTrend(co2: real)
    ensures PredictedCo2(co2, Decreasing) < co2 < PredictedCo2(co2, Stable) < PredictedCo2(co2, Increasing)
    ensures forall t :: co2 - 5.0 <= PredictedCo2(co2, t) <= co2 + 5.0
  {
  }

  /** The alert of a reading: only WARNING and CRITICAL raise one, typed by the AQI, with the safety level as severity. */
  function AlertFor(aqi: int, safety: Safety): (a: Option<SystemAlert>)
    ensures a.Some? <==> safety == WarningLevel || safety == CriticalLevel
    ensures a.Some? ==> a.value.severity == safety && !a.value.resolved
    ensures a.Some? ==> (a.value.alertType == HighPollution <==> aqi > 150)
  {
    if safety == WarningLevel || safety == CriticalLevel then
      Some(SystemAlert(if aqi > 150 then HighPollution else GeneralRisk, safety, false))
    else
      None
  }

  /** One iteration's analytics record and alert for the drawn readings. */
  function Simulate(aqi: int, vehicleCount: int, humidity: real): (r: Reading)
    ensures r.riskScore == RiskScore(aqi as real, vehicleCount as real, humidity)
    ensures 0.0 <= r.riskScore <= 100.0
    ensures r.safety == CategorizeSafety(r.riskScore)
    ensures r.alert == AlertFor(aqi, r.safety)
    ensures r.alert.Some? <==> r.riskScore > 60.0
    ensures r.alert.Some? ==> r.alert.value.severity == r.safety && !r.alert.value.resolved
                              && (r.alert.value.alertType == HighPollution <==> aqi > 150)
  {
    var score := RiskScore(aqi as real, vehicleCount as real, humidity);
    var safety := CategorizeSafety(score);
    Reading(score, safety, AlertFor(aqi, safety))
  }

  /**
   * A spike draw (AQI 150–220, 200–800 vehicles, humidity 40–75 %) always
   * saturates the score, so it is CRITICAL and alerts; the type is
   * HIGH_POLLUTION except at an AQI of exactly 150.
   */
  lemma SpikeAlwaysCritical(aqi: int, vehicleCount: int, humidity: real)
    requires 150 <= aqi <= 220 && 200 <= vehicleCount <= 800 && 40.0 <= humidity <= 75.0
    ensures var r := Simulate(aqi, vehicleCount, humidity);
            r.riskScore == 100.0 && r.safety == CriticalLevel && r.alert.Some?
            && (r.alert.value.alertType == HighPollution <==> aqi != 150)
  {
  }

  /**
   * An ordinary draw (AQI 40–110, 200–800 vehicles, humidity 40–75 %)
   * scores between 34 and 97.5 and never raises a HIGH_POLLUTION alert.
   */
  lemma OrdinaryDrawRange(aqi: int, vehicleCount: int, humidity: real)
    requires 40 <= aqi <= 110 && 200 <= vehicleCount <= 800 && 40.0 <= humidity <= 75.0
    ensures var r := Simulate(aqi, vehicleCount, humidity);
            34.0 <= r.riskScore <= 97.5
            && (r.alert.Some? ==> r.alert.value.alertType == GeneralRisk)
  {
    RiskScoreMonotone(40.0, 200.0, 40.0, aqi as real, vehicleCount as real, humidity);
    RiskScoreMonotone(aqi as real, vehicleCount as real, humidity, 110.0, 800.0, 75.0);
  }
}
