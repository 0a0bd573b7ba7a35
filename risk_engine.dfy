/**
 * The environmental risk scorer: a weighted sum of normalised CO₂,
 * temperature, carbon score and traffic impact, clipped to [0, 100]; the
 * four-level classification with its advice; and the buffer of the last 100
 * assessments with its "latest" accessor.
 *
 * Weights and normalisation ranges appear as literals in the formula so
 * that the arithmetic stays linear: CO₂ 0.5 over 400–1000 ppm, temperature
 * 0.2 over 25–45 °C, carbon score 0.2 (divided by 100, not clipped),
 * traffic impact 0.1 (clipped to [0, 1]). The two-decimal rounding of the
 * score is not modelled.
 */
module Risk {
  import opened Common

  const HISTORY_LIMIT: nat := 100

  /** `compute_risk_score`, before rounding to two decimals. */
  function ComputeRiskScore(co2: real, temp: real, carbonScore: real, trafficImpact: real): (r: real)
    ensures 0.0 <= r <= 100.0
  {
    var nCo2 := Clamp((co2 - 400.0) / 600.0, 0.0, 1.0);
    var nTemp := Clamp((temp - 25.0) / 20.0, 0.0, 1.0);
    var nCarbon := carbonScore / 100.0;
    var nTraffic := Clamp(trafficImpact, 0.0, 1.0);
    Clamp((nCo2 * 0.5 + nTemp * 0.2 + nCarbon * 0.2 + nTraffic * 0.1) * 100.0, 0.0, 100.0)
  }

  /** Every weight is positive, so raising any input never lowers the score. */
  lemma RiskScoreMonotone(co2: real, temp: real, carbon: real, traffic: real,
                          co2b: real, tempb: real, carbonb: real, trafficb: real)
    requires co2 <= co2b && temp <= tempb && carbon <= carbonb && traffic <= trafficb
    ensures ComputeRiskScore(co2, temp, carbon, traffic) <= ComputeRiskScore(co2b, tempb, carbonb, trafficb)
  {
    ClampMonotone((co2 - 400.0) / 600.0, (co2b - 400.0) / 600.0, 0.0, 1.0);
    ClampMonotone((temp - 25.0) / 20.0, (tempb - 25.0) / 20.0, 0.0, 1.0);
    ClampMonotone(traffic, trafficb, 0.0, 1.0);
    var sa := (Clamp((co2 - 400.0) / 600.0, 0.0, 1.0) * 0.5 + Clamp((temp - 25.0) / 20.0, 0.0, 1.0) * 0.2
               + carbon / 100.0 * 0.2 + Clamp(traffic, 0.0, 1.0) * 0.1) * 100.0;
    var sb := (Clamp((co2b - 400.0) / 600.0, 0.0, 1.0) * 0.5 + Clamp((tempb - 25.0) / 20.0, 0.0, 1.0) * 0.2
               + carbonb / 100.0 * 0.2 + Clamp(trafficb, 0.0, 1.0) * 0.1) * 100.0;
    ClampMonotone(sa, sb, 0.0, 100.0);
  }

  /** Background CO₂, a comfortable temperature, no carbon and no traffic score 0. */
  lemma CalmConditionsScoreZero(co2: real, temp: real, carbon: real, traffic: real)
    requires co2 <= 400.0 && temp <= 25.0 && carbon <= 0.0 && traffic <= 0.0
    ensures ComputeRiskScore(co2, temp, carbon, traffic) == 0.0
  {
  }

  /** Every input at or beyond its high end scores the full 100. */
  lemma ExtremeConditionsScoreHundred(co2: real, temp: real, carbon: real, traffic: real)
    requires co2 >= 1000.0 && temp >= 45.0 && carbon >= 100.0 && traffic >= 1.0
    ensures ComputeRiskScore(co2, temp, carbon, traffic) == 100.0
  {
  }

  // ---------------------------------------------------------------------------
  // classify_risk
  // ---------------------------------------------------------------------------

  datatype RiskLevel = Safe | Moderate | High | Critical

  function LevelRank(l: RiskLevel): nat
  {
    match l
    case Safe => 0
    case Moderate => 1
    case High => 2
    case Critical => 3
  }

  /** The inclusive upper bounds: up to 30 SAFE, up to 60 MODERATE, up to 80 HIGH, above CRITICAL. */
  function LevelOf(score: real): (l: RiskLevel)
    ensures l == Safe <==> score <= 30.0
    ensures l == Moderate <==> 30.0 < score <= 60.0
    ensures l == High <==> 60.0 < score <= 80.0
    ensures l == Critical <==> 80.0 < score
  {
    if score <= 30.0 then Safe
    else if score <= 60.0 then Moderate
    else if score <= 80.0 then High
    else Critical
  }

  lemma LevelMonotone(a: real, b: real)
    requires a <= b
    ensures LevelRank(LevelOf(a)) <= LevelRank(LevelOf(b))
  {
  }

  /** The sentences a recommendation is made of. */
  datatype Sentence = Advice(level: RiskLevel) | HeatNote | Co2Note | Initializing

  function Text(s: Sentence): string
  {
    match s
    case Advice(Safe) => "Air quality is excellent. Ideal conditions for outdoor activities and natural ventilation."
    case Advice(Moderate) => "Moderate risk detected. Sensitive individuals should limit prolonged outdoor exertion."
    case Advice(High) => "Significant environmental stress. Close windows, activate air filtration, and reduce energy consumption."
    case Advice(Critical) => "Hazardous conditions! Evacuate non-essential personnel, activate emergency HVAC protocols, and seek filtered environments."
    case HeatNote => " Extreme heat alert: Ensure hydration and active cooling."
    case Co2Note => " High CO2 alert: Increase mechanical ventilation immediately."
    case Initializing => "Initializing sensor network... Data incoming."
  }

  function Texts(ss: seq<Sentence>): seq<string>
  {
    seq(|ss|, i requires 0 <= i < |ss| => Text(ss[i]))
  }

  /** An assessment; the recommendation is the concatenation of its sentences' texts. */
  datatype RiskAssessment = RiskAssessment(riskScore: real, level: RiskLevel, sentences: seq<Sentence>)
  {
    function Recommendation(): string
    {
      Concat(Texts(sentences))
    }
  }

  /**
   * `classify_risk`: the level's advice, then the heat note when the
   * temperature is above 40 °C, then the CO₂ note when CO₂ is above 800 ppm.
   */
  function ClassifyRisk(score: real, co2: real, temp: real): (r: RiskAssessment)
    ensures r.riskScore == score && r.level == LevelOf(score)
    ensures |r.sentences| >= 1 && r.sentences[0] == Advice(r.level)
    ensures HeatNote in r.sentences <==> temp > 40.0
    ensures Co2Note in r.sentences <==> co2 > 800.0
    ensures temp > 40.0 ==> r.sentences[1] == HeatNote
    ensures co2 > 800.0 ==> r.sentences[|r.sentences| - 1] == Co2Note
    ensures |r.sentences| == 1 + (if temp > 40.0 then 1 else 0) + (if co2 > 800.0 then 1 else 0)
  {
    var level := LevelOf(score);
    RiskAssessment(score, level,
                   [Advice(level)] + (if temp > 40.0 then [HeatNote] else []) + (if co2 > 800.0 then [Co2Note] else []))
  }

  // ---------------------------------------------------------------------------
  // The history of the last 100 assessments
  // ---------------------------------------------------------------------------

  const INITIAL_ASSESSMENT: RiskAssessment :=
    RiskAssessment(0.0, Safe, [Initializing])

  /** The module-level `_risk_history` list, as an explicitly constructed object. */
  class RiskHistory {
    var entries: seq<RiskAssessment>
    /** Every assessment ever recorded, oldest first. */
    ghost var log: seq<RiskAssessment>

    ghost predicate Valid()
      reads this
    {
      entries == NewestLast(log, HISTORY_LIMIT)
    }

    constructor()
      ensures Valid() && entries == [] && log == []
    {
      entries := [];
      log := [];
    }

    /** `record_risk`: append, then drop the oldest entry when more than 100 are held. */
    method Record(a: RiskAssessment)
      requires Valid()
      modifies this
      ensures Valid()
      ensures log == old(log) + [a]
      ensures |entries| == if |old(entries)| < HISTORY_LIMIT then |old(entries)| + 1 else HISTORY_LIMIT
      ensures entries[|entries| - 1] == a
    {
      AppendTrimNewestLast(log, a, HISTORY_LIMIT);
      entries := entries + [a];
      if |entries| > HISTORY_LIMIT {
        entries := entries[1..];
      }
      log := log + [a];
    }

    /** `get_latest_risk`: the newest assessment, or the initial SAFE/0.0 one before any is recorded. */
    function GetLatest(): (r: RiskAssessment)
      reads this
      requires Valid()
      ensures log == [] ==> r == INITIAL_ASSESSMENT
      ensures log != [] ==> r == log[|log| - 1]
    {
      if entries == [] then INITIAL_ASSESSMENT else entries[|entries| - 1]
    }
  }
}
