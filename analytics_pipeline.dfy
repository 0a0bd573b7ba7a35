/**
 * The per-row functions of the streaming analytics pipeline: the weighted
 * environmental risk score, its four safety bands, the congestion score
 * derived from the average speed, the alert filter over analysed rows and
 * the traffic-impact input of the risk assessment, which each row's
 * assessment records in the risk history.
 *
 * Weights appear as literals so that the arithmetic stays linear.
 */
module Analytics {
  import opened Common
  import Risk

  datatype Safety = SafeLevel | ModerateLevel | WarningLevel | CriticalLevel

  function SafetyName(s: Safety): string
  {
    match s
    case SafeLevel => "SAFE"
    case ModerateLevel => "MODERATE"
    case WarningLevel => "WARNING"
    case CriticalLevel => "CRITICAL"
  }

  function SafetyRank(s: Safety): nat
  {
    match s
    case SafeLevel => 0
    case ModerateLevel => 1
    case WarningLevel => 2
    case CriticalLevel => 3
  }

  // ---------------------------------------------------------------------------
  // compute_risk_score
  // ---------------------------------------------------------------------------

  /** AQI × 0.6 + (traffic / 10) × 0.3 + humidity × 0.1, clipped to [0, 100]. */
  function RiskScore(aqi: real, traffic: real, humidity: real): (r: real)
    ensures 0.0 <= r <= 100.0
  {
    Clamp(aqi * 0.6 + traffic / 10.0 * 0.3 + humidity * 0.1, 0.0, 100.0)
  }

  /** All three weights are positive, so raising any reading never lowers the score. */
  lemma RiskScoreMonotone(aqi: real, traffic: real, humidity: real, aqi2: real, traffic2: real, humidity2: real)
    requires aqi <= aqi2 && traffic <= traffic2 && humidity <= humidity2
    ensures RiskScore(aqi, traffic, humidity) <= RiskScore(aqi2, traffic2, humidity2)
  {
    ClampMonotone(aqi * 0.6 + traffic / 10.0 * 0.3 + humidity * 0.1,
                  aqi2 * 0.6 + traffic2 / 10.0 * 0.3 + humidity2 * 0.1, 0.0, 100.0);
  }

  /** Below the clip the score is exactly the weighted sum. */
  lemma RiskScoreUnclipped(aqi: real, traffic: real, humidity: real)
    requires aqi >= 0.0 && traffic >= 0.0 && humidity >= 0.0
    requires aqi * 6.0 + traffic * 0.3 + humidity <= 1000.0
    ensures RiskScore(aqi, traffic, humidity) == aqi * 0.6 + traffic * 0.03 + humidity * 0.1
  {
  }

  /** No pollution, no traffic and dry air score 0. */
  lemma CleanAirScoresZero(traffic: real, humidity: real)
    requires traffic <= 0.0 && humidity <= 0.0
    ensures RiskScore(0.0, traffic, humidity) == 0.0
  {
  }

  /** An AQI of 500/3 (about 167) or more saturates the score when the other readings are not negative. */
  lemma SevereAqiSaturates(aqi: real, traffic: real, humidity: real)
    requires aqi >= 500.0 / 3.0 && traffic >= 0.0 && humidity >= 0.0
    ensures RiskScore(aqi, traffic, humidity) == 100.0
  {
  }

  // ---------------------------------------------------------------------------
  // categorize_safety
  // ---------------------------------------------------------------------------

  /** Strict bands: above 80 CRITICAL, above 60 WARNING, above 40 MODERATE, otherwise SAFE. */
  function CategorizeSafety(score: real): (s: Safety)
    ensures s == CriticalLevel <==> score > 80.0
    ensures s == WarningLevel <==> 60.0 < score <= 80.0
    ensures s == ModerateLevel <==> 40.0 < score <= 60.0
    ensures s == SafeLevel <==> score <= 40.0
  {
    if score > 80.0 then CriticalLevel
    else if score > 60.0 then WarningLevel
    else if score > 40.0 then ModerateLevel
    else SafeLevel
  }

  /** A higher score never gives a lower band. */
  lemma SafetyMonotone(a: real, b: real)
    requires a <= b
    ensures SafetyRank(CategorizeSafety(a)) <= SafetyRank(CategorizeSafety(b))
  {
  }

  /** The boundaries belong to the lower band: exactly 80 is a WARNING, exactly 40 is SAFE. */
  lemma BoundariesBelongBelow()
    ensures CategorizeSafety(80.0) == WarningLevel
    ensures CategorizeSafety(60.0) == ModerateLevel
    ensures CategorizeSafety(40.0) == SafeLevel
  {
  }

  // ---------------------------------------------------------------------------
  // compute_congestion_score
  // ---------------------------------------------------------------------------

  /** 100 − speed / 80 × 100, clipped to [0, 100]: standstill is 100, 80 km/h or faster is 0. */
  function Congestion(speed: real): (r: real)
    ensures 0.0 <= r <= 100.0
    ensures speed <= 0.0 ==> r == 100.0
    ensures speed >= 80.0 ==> r == 0.0
    ensures 0.0 <= speed <= 80.0 ==> r == 100.0 - speed * 1.25
  {
    Max(Min(100.0 - speed / 80.0 * 100.0, 100.0), 0.0)
  }

  /** Faster traffic is never more congested. */
  lemma CongestionNonIncreasing(a: real, b: real)
    requires a <= b
    ensures Congestion(b) <= Congestion(a)
  {
  }

  /** Between standstill and 80 km/h a faster speed is strictly less congested. */
  lemma CongestionStrictlyDecreasing(a: real, b: real)
    requires 0.0 <= a < b <= 80.0
    ensures Congestion(b) < Congestion(a)
  {
  }

  // ---------------------------------------------------------------------------
  // The alert filter
  // ---------------------------------------------------------------------------

  datatype AlertRow = AlertRow(riskScore: real, safety: Safety)

  /** The analysed rows whose risk score exceeds 80, in order, each with its safety level. */
  function Alerts(scores: seq<real>): (r: seq<AlertRow>)
    ensures |r| <= |scores|
    ensures forall i :: 0 <= i < |r| ==> r[i].riskScore > 80.0 && r[i].safety == CriticalLevel
    ensures forall x :: x in scores && x > 80.0 <==> AlertRow(x, CriticalLevel) in r
  {
    if scores == [] then []
    else
      var rest := Alerts(scores[..|scores| - 1]);
      var x := scores[|scores| - 1];
      assert scores == scores[..|scores| - 1] + [x];
      if x > 80.0 then rest + [AlertRow(x, CategorizeSafety(x))] else rest
  }

  /** A row raises an alert exactly when its safety level is CRITICAL. */
  lemma AlertIffCritical(score: real)
    ensures Alerts([score]) != [] <==> CategorizeSafety(score) == CriticalLevel
  {
    assert [score][..0] == [];
  }

  /** Alerts of a longer stream extend the alerts of its prefix. */
  lemma {:induction false} AlertsOfConcat(a: seq<real>, b: seq<real>)
    ensures Alerts(a + b) == Alerts(a) + Alerts(b)
    decreases |b|
  {
    if b == [] {
      assert a + b == a;
    } else {
      var b' := b[..|b| - 1];
      var x := b[|b| - 1];
      assert (a + b)[..|a + b| - 1] == a + b';
      assert b[..|b| - 1] == b';
      AlertsOfConcat(a, b');
    }
  }

  // ---------------------------------------------------------------------------
  // get_risk_assessment
  // ---------------------------------------------------------------------------

  /** Traffic slower than 30 km/h counts as full traffic impact, anything else as none. */
  function TrafficImpact(speed: real): (r: real)
    ensures r == 1.0 <==> speed < 30.0
    ensures r == 0.0 <==> speed >= 30.0
  {
    if speed < 30.0 then 1.0 else 0.0
  }

  /** The assessment of a fused row: the risk engine's score with the traffic impact, then its classification. */
  function RowAssessment(co2: real, temp: real, carbon: real, speed: real): (r: Risk.RiskAssessment)
    ensures r.riskScore == Risk.ComputeRiskScore(co2, temp, carbon, TrafficImpact(speed))
    ensures 0.0 <= r.riskScore <= 100.0
    ensures r.level == Risk.LevelOf(r.riskScore)
    ensures r == Risk.ClassifyRisk(r.riskScore, co2, temp)
  {
    Risk.ClassifyRisk(Risk.ComputeRiskScore(co2, temp, carbon, TrafficImpact(speed)), co2, temp)
  }

  /** Slow traffic never lowers the assessed risk, nor its level. */
  lemma SlowTrafficRaisesRisk(co2: real, temp: real, carbon: real, slow: real, fast: real)
    requires slow < 30.0
    ensures RowAssessment(co2, temp, carbon, fast).riskScore <= RowAssessment(co2, temp, carbon, slow).riskScore
    ensures Risk.LevelRank(RowAssessment(co2, temp, carbon, fast).level)
            <= Risk.LevelRank(RowAssessment(co2, temp, carbon, slow).level)
  {
    Risk.RiskScoreMonotone(co2, temp, carbon, TrafficImpact(fast), co2, temp, carbon, TrafficImpact(slow));
    Risk.LevelMonotone(Risk.ComputeRiskScore(co2, temp, carbon, TrafficImpact(fast)),
                       Risk.ComputeRiskScore(co2, temp, carbon, TrafficImpact(slow)));
  }

  /**
   * `get_risk_assessment`: assess the fused row and record the assessment in
   * the history that `get_latest_risk` reads.
   */
  method GetRiskAssessment(history: Risk.RiskHistory, co2: real, temp: real, carbon: real, speed: real)
    returns (r: Risk.RiskAssessment)
    requires history.Valid()
    modifies history
    ensures r == RowAssessment(co2, temp, carbon, speed)
    ensures history.Valid() && history.log == old(history.log) + [r]
    ensures history.GetLatest() == r
  {
    r := RowAssessment(co2, temp, carbon, speed);
    history.Record(r);
  }
}
