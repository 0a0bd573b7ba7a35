/**
 * The what-if simulation engine: three intervention levers (traffic cut,
 * ventilation boost, industry cut), each turned into an effective fraction by
 * a diminishing-returns curve, lower the baseline CO₂ and AQI; the new
 * readings give a new risk score, an alert level and an impact summary.
 *
 * The exponential is a parameter: any function with the laws of `exp` that
 * the proofs use (`ExpLaws`). Rounding of the reported figures is not modelled.
 */
module Simulation {
  import opened Common

  /*
   * The coefficients appear as literals in the formulas below, so that the
   * arithmetic stays linear for the verifier:
   *   CO₂ shares: traffic 0.27, industry 0.33; ventilation dilution capped at 0.30;
   *   AQI coefficients: traffic 0.35, industry 0.40, ventilation 0.20;
   *   curve steepness: traffic 1.6, ventilation 1.2, industry 1.8;
   *   risk weights: CO₂ 0.55, AQI 0.25, temperature 0.20;
   *   normalisation: CO₂ 400–1000 ppm, AQI 50–300, temperature 25–45 °C.
   */

  const DEFAULT_CO2: real := 420.0
  const DEFAULT_AQI: real := 85.0
  const DEFAULT_RISK: real := 45.0
  const DEFAULT_TEMP: real := 28.0

  const TRAFFIC_AQI_COEFF: real := 0.35
  const INDUSTRY_AQI_COEFF: real := 0.40
  const VENTIL_AQI_COEFF: real := 0.20

  const TRAFFIC_STEEPNESS: real := 1.6
  const VENTILATION_STEEPNESS: real := 1.2
  const INDUSTRY_STEEPNESS: real := 1.8

  const CO2_FLOOR: real := 300.0
  const AQI_FLOOR: real := 10.0

  /** The laws of the exponential the model relies on. */
  ghost predicate ExpLaws(exp: real -> real)
  {
    exp(0.0) == 1.0
    && (forall x :: exp(x) > 0.0)
    && (forall x, y :: x < y ==> exp(x) < exp(y))
  }

  // ---------------------------------------------------------------------------
  // Diminishing returns
  // ---------------------------------------------------------------------------

  /** `_diminishing`: 0 for no intervention, else `1 - exp(-steepness * pct)`. */
  function Diminishing(pct: real, steepness: real, exp: real -> real): (r: real)
    ensures pct <= 0.0 ==> r == 0.0
    ensures ExpLaws(exp) ==> r < 1.0
  {
    if pct <= 0.0 then 0.0 else 1.0 - exp(-(steepness * pct))
  }

  /** A positive intervention has a positive effect, and no intervention reaches 100 %. */
  lemma DiminishingRange(pct: real, steepness: real, exp: real -> real)
    requires ExpLaws(exp) && steepness > 0.0
    ensures 0.0 <= Diminishing(pct, steepness, exp) < 1.0
    ensures pct > 0.0 ==> Diminishing(pct, steepness, exp) > 0.0
  {
    if pct > 0.0 {
      MulPos(steepness, pct);
      assert exp(-(steepness * pct)) < exp(0.0);
      assert exp(-(steepness * pct)) > 0.0;
    }
  }

  /** A larger intervention is never less effective. */
  lemma DiminishingMonotone(a: real, b: real, steepness: real, exp: real -> real)
    requires ExpLaws(exp) && steepness > 0.0 && a <= b
    ensures Diminishing(a, steepness, exp) <= Diminishing(b, steepness, exp)
  {
    DiminishingRange(a, steepness, exp);
    DiminishingRange(b, steepness, exp);
    if a > 0.0 {
      NegatedScaleOrder(a, b, steepness);
      var xa := -(steepness * a);
      var xb := -(steepness * b);
      assert xb <= xa;
      if xb < xa {
        assert exp(xb) < exp(xa);
      }
    }
  }

  lemma NegatedScaleOrder(a: real, b: real, s: real)
    requires a <= b && s > 0.0
    ensures -(s * b) <= -(s * a)
  {
    MulLeft(a, b, s);
  }

  // ---------------------------------------------------------------------------
  // Inputs and baselines
  // ---------------------------------------------------------------------------

  datatype SimulationInput = SimulationInput(
    trafficReductionPct: real,
    ventilationIncreasePct: real,
    industryReductionPct: real,
    baselineCo2: Option<real>,
    baselineAqi: Option<real>,
    baselineRisk: Option<real>,
    baselineTemp: Option<real>)

  /** Live readings passed to `simulate`, each possibly absent. */
  datatype LiveReadings = LiveReadings(co2: Option<real>, aqi: Option<real>, risk: Option<real>, temp: Option<real>)

  datatype Baselines = Baselines(co2: real, aqi: real, risk: real, temp: real)

  /** `x` is the explicit value if truthy, else the live value if truthy, else the default. */
  predicate ResolvedFrom(x: real, explicit: Option<real>, live: Option<real>, default: real)
  {
    && (Truthy(explicit) ==> x == explicit.value)
    && (!Truthy(explicit) && Truthy(live) ==> x == live.value)
    && (!Truthy(explicit) && !Truthy(live) ==> x == default)
  }

  /** `inp.baseline_x or live_x or DEFAULT_X`: zero and absent values fall through. */
  function ResolveBaselines(inp: SimulationInput, live: LiveReadings): (r: Baselines)
    ensures r.co2 != 0.0 && r.aqi != 0.0 && r.risk != 0.0 && r.temp != 0.0
    ensures ResolvedFrom(r.co2, inp.baselineCo2, live.co2, DEFAULT_CO2)
    ensures ResolvedFrom(r.aqi, inp.baselineAqi, live.aqi, DEFAULT_AQI)
    ensures ResolvedFrom(r.risk, inp.baselineRisk, live.risk, DEFAULT_RISK)
    ensures ResolvedFrom(r.temp, inp.baselineTemp, live.temp, DEFAULT_TEMP)
  {
    Baselines(
      OrElse(inp.baselineCo2, OrElse(live.co2, DEFAULT_CO2)),
      OrElse(inp.baselineAqi, OrElse(live.aqi, DEFAULT_AQI)),
      OrElse(inp.baselineRisk, OrElse(live.risk, DEFAULT_RISK)),
      OrElse(inp.baselineTemp, OrElse(live.temp, DEFAULT_TEMP)))
  }

  /** A lever percentage clipped to [0, 100] and turned into a fraction. */
  function Lever(pct: real): (r: real)
    ensures 0.0 <= r <= 1.0
    ensures pct <= 0.0 ==> r == 0.0
    ensures pct >= 100.0 ==> r == 1.0
  {
    Clamp(pct, 0.0, 100.0) / 100.0
  }

  lemma LeverMonotone(a: real, b: real)
    requires a <= b
    ensures Lever(a) <= Lever(b)
  {
    ClampMonotone(a, b, 0.0, 100.0);
  }

  // ---------------------------------------------------------------------------
  // CO₂, AQI and risk
  // ---------------------------------------------------------------------------

  datatype Effects = Effects(traffic: real, ventilation: real, industry: real)

  function LeverEffects(inp: SimulationInput, exp: real -> real): (r: Effects)
    ensures inp.trafficReductionPct <= 0.0 ==> r.traffic == 0.0
    ensures inp.ventilationIncreasePct <= 0.0 ==> r.ventilation == 0.0
    ensures inp.industryReductionPct <= 0.0 ==> r.industry == 0.0
    ensures ExpLaws(exp) ==> r.traffic < 1.0 && r.ventilation < 1.0 && r.industry < 1.0
  {
    Effects(
      Diminishing(Lever(inp.trafficReductionPct), 1.6, exp),
      Diminishing(Lever(inp.ventilationIncreasePct), 1.2, exp),
      Diminishing(Lever(inp.industryReductionPct), 1.8, exp))
  }

  lemma LeverEffectsRange(inp: SimulationInput, exp: real -> real)
    requires ExpLaws(exp)
    ensures var e := LeverEffects(inp, exp);
            0.0 <= e.traffic < 1.0 && 0.0 <= e.ventilation < 1.0 && 0.0 <= e.industry < 1.0
  {
    DiminishingRange(Lever(inp.trafficReductionPct), 1.6, exp);
    DiminishingRange(Lever(inp.ventilationIncreasePct), 1.2, exp);
    DiminishingRange(Lever(inp.industryReductionPct), 1.8, exp);
  }

  /** The ppm saved by each lever: traffic, industry, and ventilation dilution. */
  datatype Savings = Savings(traffic: real, industry: real, ventilation: real)

  function Co2Savings(baseCo2: real, e: Effects): (r: Savings)
    ensures e.traffic == 0.0 ==> r.traffic == 0.0
    ensures e.industry == 0.0 ==> r.industry == 0.0
    ensures e.ventilation == 0.0 ==> r.ventilation == 0.0
  {
    Savings(baseCo2 * 0.27 * e.traffic,
            baseCo2 * 0.33 * e.industry,
            baseCo2 * Min(e.ventilation, 0.30))
  }

  function TotalSaved(s: Savings): real
  {
    s.traffic + s.industry + s.ventilation
  }

  /** With a non-negative baseline, the levers together save at most 27 % + 33 % + 30 % of it. */
  lemma SavingsBounded(baseCo2: real, e: Effects)
    requires baseCo2 >= 0.0
    requires 0.0 <= e.traffic <= 1.0 && 0.0 <= e.ventilation <= 1.0 && 0.0 <= e.industry <= 1.0
    ensures 0.0 <= TotalSaved(Co2Savings(baseCo2, e)) <= baseCo2 * 0.9
  {
    var sv := Co2Savings(baseCo2, e);
    ShareBounded(baseCo2, 0.27, e.traffic, sv.traffic);
    ShareBounded(baseCo2, 0.33, e.industry, sv.industry);
    VentilationBounded(baseCo2, e.ventilation, sv.ventilation);
  }

  lemma ShareBounded(base: real, share: real, f: real, x: real)
    requires base >= 0.0 && share >= 0.0 && 0.0 <= f <= 1.0 && x == base * share * f
    ensures 0.0 <= x <= base * share
  {
    var amount := base * share;
    MulNonneg(base, share);
    FractionOf(amount, f);
    assert x == amount * f;
  }

  lemma VentilationBounded(base: real, v: real, x: real)
    requires base >= 0.0 && 0.0 <= v && x == base * Min(v, 0.30)
    ensures 0.0 <= x <= base * 0.30
  {
    var m := Min(v, 0.30);
    MulNonneg(base, m);
    MulLeft(m, 0.30, base);
  }

  /** A fraction in [0, 1] of a non-negative amount lies between 0 and the amount. */
  lemma FractionOf(amount: real, f: real)
    requires amount >= 0.0 && 0.0 <= f <= 1.0
    ensures 0.0 <= amount * f <= amount
  {
    MulNonneg(amount, f);
    MulLeft(f, 1.0, amount);
  }

  /** A lever left at zero (or below) saves nothing, whatever the others do. */
  lemma IdleLeverSavesNothing(inp: SimulationInput, exp: real -> real, baseCo2: real)
    ensures inp.trafficReductionPct <= 0.0 ==> Co2Savings(baseCo2, LeverEffects(inp, exp)).traffic == 0.0
    ensures inp.industryReductionPct <= 0.0 ==> Co2Savings(baseCo2, LeverEffects(inp, exp)).industry == 0.0
    ensures inp.ventilationIncreasePct <= 0.0 ==> Co2Savings(baseCo2, LeverEffects(inp, exp)).ventilation == 0.0
  {
    var e := LeverEffects(inp, exp);
    assert inp.trafficReductionPct <= 0.0 ==> e.traffic == 0.0;
    assert inp.industryReductionPct <= 0.0 ==> e.industry == 0.0;
    assert inp.ventilationIncreasePct <= 0.0 ==> e.ventilation == 0.0;
  }

  /** `max(300, base - saved)`. */
  function NewCo2(baseCo2: real, saved: real): (r: real)
    ensures r >= CO2_FLOOR
  {
    Max(CO2_FLOOR, baseCo2 - saved)
  }

  /** `max(10, base - base × (0.35 t + 0.40 i + 0.20 v))`. */
  function NewAqi(baseAqi: real, e: Effects): (r: real)
    ensures r >= AQI_FLOOR
  {
    Max(AQI_FLOOR, baseAqi - (baseAqi * 0.35 * e.traffic
                              + baseAqi * 0.40 * e.industry
                              + baseAqi * 0.20 * e.ventilation))
  }

  /** `(x - lo) / span` clipped to [0, 1]. */
  function Normalise(x: real, lo: real, span: real): (r: real)
    requires span > 0.0
    ensures 0.0 <= r <= 1.0
  {
    Clamp((x - lo) / span, 0.0, 1.0)
  }

  lemma NormaliseMonotone(x: real, y: real, lo: real, span: real)
    requires span > 0.0 && x <= y
    ensures Normalise(x, lo, span) <= Normalise(y, lo, span)
  {
    MulLeft(x - lo, y - lo, 1.0 / span);
    assert (x - lo) / span == (x - lo) * (1.0 / span);
    assert (y - lo) / span == (y - lo) * (1.0 / span);
    ClampMonotone((x - lo) / span, (y - lo) / span, 0.0, 1.0);
  }

  /** The new risk score: 55 % CO₂, 25 % AQI, 20 % temperature, each normalised, clipped to [0, 100]. */
  function SimRiskScore(co2: real, aqi: real, temp: real): (r: real)
    ensures 0.0 <= r <= 100.0
  {
    var nCo2 := Normalise(co2, 400.0, 600.0);
    var nAqi := Normalise(aqi, 50.0, 250.0);
    var nTemp := Normalise(temp, 25.0, 20.0);
    Clamp((nCo2 * 0.55 + nAqi * 0.25 + nTemp * 0.20) * 100.0, 0.0, 100.0)
  }

  /** Lower CO₂ and AQI never raise the risk score. */
  lemma SimRiskMonotone(co2a: real, aqia: real, co2b: real, aqib: real, temp: real)
    requires co2a <= co2b && aqia <= aqib
    ensures SimRiskScore(co2a, aqia, temp) <= SimRiskScore(co2b, aqib, temp)
  {
    NormaliseMonotone(co2a, co2b, 400.0, 600.0);
    NormaliseMonotone(aqia, aqib, 50.0, 250.0);
    var nTemp := Normalise(temp, 25.0, 20.0);
    var ra := (Normalise(co2a, 400.0, 600.0) * 0.55
               + Normalise(aqia, 50.0, 250.0) * 0.25 + nTemp * 0.20) * 100.0;
    var rb := (Normalise(co2b, 400.0, 600.0) * 0.55
               + Normalise(aqib, 50.0, 250.0) * 0.25 + nTemp * 0.20) * 100.0;
    ClampMonotone(ra, rb, 0.0, 100.0);
  }

  datatype AlertLevel = Safe | Moderate | HighAlert | CriticalAlert

  /** `_classify_alert`: below 30 SAFE, below 55 MODERATE, below 75 HIGH, else CRITICAL. */
  function ClassifyAlert(risk: real): (r: AlertLevel)
    ensures AlertRank(r) >= 1 <==> risk >= 30.0
    ensures AlertRank(r) >= 2 <==> risk >= 55.0
    ensures AlertRank(r) >= 3 <==> risk >= 75.0
  {
    if risk < 30.0 then Safe
    else if risk < 55.0 then Moderate
    else if risk < 75.0 then HighAlert
    else CriticalAlert
  }

  function AlertRank(a: AlertLevel): nat
  {
    match a
    case Safe => 0
    case Moderate => 1
    case HighAlert => 2
    case CriticalAlert => 3
  }

  /** A higher risk never gives a lower alert level. */
  lemma ClassifyAlertMonotone(a: real, b: real)
    requires a <= b
    ensures AlertRank(ClassifyAlert(a)) <= AlertRank(ClassifyAlert(b))
  {
  }

  // ---------------------------------------------------------------------------
  // The impact summary
  // ---------------------------------------------------------------------------

  /** The headline, by the percentage of CO₂ removed. */
  datatype Headline = Significant(pct: real) | Meaningful(pct: real) | Marginal(pct: real) | NoIntervention

  /** One entry of the source breakdown, with the ppm it saves. */
  datatype SourceLine = TrafficLine(ppm: real) | IndustryLine(ppm: real) | VentilationLine(ppm: real)

  /** The risk sentence: `improved` when the risk fell, `unchanged` otherwise (even when it rose). */
  datatype RiskDirection = Improved | Unchanged

  datatype Summary = Summary(
    headline: Headline,
    breakdown: seq<SourceLine>,
    co2From: real,
    co2To: real,
    co2Saving: real,
    direction: RiskDirection,
    riskFrom: real,
    riskTo: real,
    riskPoints: real,
    alertSentence: string)

  function HeadlineFor(co2DeltaPct: real): (r: Headline)
    ensures r.NoIntervention? <==> co2DeltaPct <= 0.0
    ensures !r.NoIntervention? ==> r.pct == co2DeltaPct
    ensures r.Significant? <==> co2DeltaPct >= 15.0
    ensures r.Meaningful? <==> 5.0 <= co2DeltaPct < 15.0
  {
    if co2DeltaPct >= 15.0 then Significant(co2DeltaPct)
    else if co2DeltaPct >= 5.0 then Meaningful(co2DeltaPct)
    else if co2DeltaPct > 0.0 then Marginal(co2DeltaPct)
    else NoIntervention
  }

  /** The fixed closing sentence for each alert level. */
  function AlertSentence(a: AlertLevel): string
  {
    match a
    case Safe => "City achieves SAFE status — outdoor activities are unrestricted."
    case Moderate => "City status: MODERATE — sensitive groups should still take precautions."
    case HighAlert => "City status remains HIGH — sustained action needed over multiple days."
    case CriticalAlert => "City status still CRITICAL — intervention scale is insufficient; escalate immediately."
  }

  /** The breakdown lists a lever when its raw (unclipped) percentage is positive, in the order traffic, industry, ventilation. */
  function Breakdown(inp: SimulationInput, s: Savings): (r: seq<SourceLine>)
    ensures |r| <= 3
    ensures TrafficLine(s.traffic) in r <==> inp.trafficReductionPct > 0.0
    ensures IndustryLine(s.industry) in r <==> inp.industryReductionPct > 0.0
    ensures VentilationLine(s.ventilation) in r <==> inp.ventilationIncreasePct > 0.0
  {
    (if inp.trafficReductionPct > 0.0 then [TrafficLine(s.traffic)] else [])
    + (if inp.industryReductionPct > 0.0 then [IndustryLine(s.industry)] else [])
    + (if inp.ventilationIncreasePct > 0.0 then [VentilationLine(s.ventilation)] else [])
  }

  function BuildSummary(inp: SimulationInput, baseCo2: real, newCo2: real, baseRisk: real, newRisk: real,
                        alert: AlertLevel, co2DeltaPct: real, riskDelta: real, s: Savings): (r: Summary)
    ensures r.headline == HeadlineFor(co2DeltaPct) && r.breakdown == Breakdown(inp, s)
    ensures r.co2From == baseCo2 && r.co2To == newCo2 && r.co2Saving == baseCo2 - newCo2
    ensures r.riskFrom == baseRisk && r.riskTo == newRisk
    ensures r.direction == Improved <==> riskDelta > 0.0
    ensures r.riskPoints >= 0.0 && (r.riskPoints == riskDelta || r.riskPoints == -riskDelta)
    ensures r.alertSentence == AlertSentence(alert)
  {
    Summary(
      HeadlineFor(co2DeltaPct),
      Breakdown(inp, s),
      baseCo2, newCo2, baseCo2 - newCo2,
      if riskDelta > 0.0 then Improved else Unchanged,
      baseRisk, newRisk, if riskDelta >= 0.0 then riskDelta else -riskDelta,
      AlertSentence(alert))
  }

  // ---------------------------------------------------------------------------
  // simulate
  // ---------------------------------------------------------------------------

  datatype SimulationResult = SimulationResult(
    newPredictedCo2: real,
    newRiskScore: real,
    alertLevel: AlertLevel,
    impactSummary: Summary,
    co2ReductionPpm: real,
    co2ReductionPct: real,
    riskReduction: real,
    trafficCo2Saved: real,
    industryCo2Saved: real,
    ventilationCo2Diluted: real,
    baselineCo2: real,
    baselineRisk: real)

  /** The physical projection: the resolved baselines, the lever effects, the savings and the new CO₂ and AQI. */
  datatype Projection = Projection(base: Baselines, effects: Effects, savings: Savings, co2: real, aqi: real)

  function Project(inp: SimulationInput, live: LiveReadings, exp: real -> real): (p: Projection)
    ensures p.base == ResolveBaselines(inp, live) && p.effects == LeverEffects(inp, exp)
    ensures p.savings == Co2Savings(p.base.co2, p.effects)
    ensures p.co2 >= CO2_FLOOR && p.aqi >= AQI_FLOOR
  {
    var b := ResolveBaselines(inp, live);
    var e := LeverEffects(inp, exp);
    var s := Co2Savings(b.co2, e);
    Projection(b, e, s, NewCo2(b.co2, TotalSaved(s)), NewAqi(b.aqi, e))
  }

  /** The risk, alert level, deltas and summary reported for a projection. */
  function Report(inp: SimulationInput, p: Projection): (r: SimulationResult)
    requires p.base.co2 != 0.0
    ensures r.newPredictedCo2 == p.co2 && r.co2ReductionPpm == TotalSaved(p.savings)
    ensures r.newRiskScore == SimRiskScore(p.co2, p.aqi, p.base.temp)
    ensures r.alertLevel == ClassifyAlert(r.newRiskScore)
    ensures r.riskReduction == p.base.risk - r.newRiskScore
    ensures r.baselineCo2 == p.base.co2 && r.baselineRisk == p.base.risk
    ensures r.co2ReductionPct == TotalSaved(p.savings) / p.base.co2 * 100.0
    ensures r.impactSummary.headline == HeadlineFor(r.co2ReductionPct)
    ensures r.impactSummary.breakdown == Breakdown(inp, p.savings)
    ensures r.impactSummary.alertSentence == AlertSentence(r.alertLevel)
  {
    var total := TotalSaved(p.savings);
    var risk := SimRiskScore(p.co2, p.aqi, p.base.temp);
    var alert := ClassifyAlert(risk);
    var co2DeltaPct := total / p.base.co2 * 100.0;
    var riskDelta := p.base.risk - risk;
    SimulationResult(p.co2, risk, alert,
                     BuildSummary(inp, p.base.co2, p.co2, p.base.risk, risk, alert, co2DeltaPct, riskDelta, p.savings),
                     total, co2DeltaPct, riskDelta,
                     p.savings.traffic, p.savings.industry, p.savings.ventilation, p.base.co2, p.base.risk)
  }

  /** `simulate`, without the rounding of the reported figures. */
  function Simulate(inp: SimulationInput, live: LiveReadings, exp: real -> real): (r: SimulationResult)
    ensures r.newPredictedCo2 >= CO2_FLOOR
    ensures 0.0 <= r.newRiskScore <= 100.0
    ensures r.alertLevel == ClassifyAlert(r.newRiskScore)
  {
    Report(inp, Project(inp, live, exp))
  }

  /** With every lever at zero or below nothing is saved: CO₂ stays at the baseline (floored at 300). */
  lemma NoInterventionKeepsBaseline(inp: SimulationInput, live: LiveReadings, exp: real -> real)
    requires inp.trafficReductionPct <= 0.0 && inp.ventilationIncreasePct <= 0.0 && inp.industryReductionPct <= 0.0
    ensures Simulate(inp, live, exp).co2ReductionPpm == 0.0
    ensures Simulate(inp, live, exp).newPredictedCo2 == Max(CO2_FLOOR, ResolveBaselines(inp, live).co2)
    ensures Simulate(inp, live, exp).impactSummary.headline == NoIntervention
    ensures Simulate(inp, live, exp).impactSummary.breakdown == []
  {
    var p := Project(inp, live, exp);
    NoLeverNoSaving(inp, live, exp);
    NoSavingReport(inp, p);
    NoLeverNoBreakdown(inp, p);
  }

  lemma NoLeverNoSaving(inp: SimulationInput, live: LiveReadings, exp: real -> real)
    requires inp.trafficReductionPct <= 0.0 && inp.ventilationIncreasePct <= 0.0 && inp.industryReductionPct <= 0.0
    ensures Project(inp, live, exp).savings == Savings(0.0, 0.0, 0.0)
    ensures Project(inp, live, exp).co2 == Max(CO2_FLOOR, ResolveBaselines(inp, live).co2)
  {
    assert LeverEffects(inp, exp) == Effects(0.0, 0.0, 0.0);
  }

  lemma NoSavingReport(inp: SimulationInput, p: Projection)
    requires TotalSaved(p.savings) == 0.0 && p.base.co2 != 0.0
    ensures Report(inp, p).co2ReductionPpm == 0.0
    ensures Report(inp, p).impactSummary.headline == NoIntervention
  {
  }

  lemma NoLeverNoBreakdown(inp: SimulationInput, p: Projection)
    requires inp.trafficReductionPct <= 0.0 && inp.ventilationIncreasePct <= 0.0 && inp.industryReductionPct <= 0.0
    requires p.base.co2 != 0.0
    ensures Report(inp, p).impactSummary.breakdown == []
  {
  }

  /**
   * With a non-negative CO₂ baseline the projection never exceeds the
   * baseline (above the 300 ppm floor) and keeps at least a tenth of it.
   */
  lemma ProjectionBounds(inp: SimulationInput, live: LiveReadings, exp: real -> real)
    requires ExpLaws(exp)
    requires ResolveBaselines(inp, live).co2 >= 0.0
    ensures var r := Simulate(inp, live, exp);
            var base := ResolveBaselines(inp, live).co2;
            r.newPredictedCo2 <= Max(CO2_FLOOR, base)
            && r.newPredictedCo2 >= base * 0.1
            && 0.0 <= r.co2ReductionPpm <= base * 0.9
  {
    var p := Project(inp, live, exp);
    LeverEffectsRange(inp, exp);
    SavingsBounded(p.base.co2, p.effects);
  }

  /** Every lever of `b` reaches at least as far as `a`'s; the baselines are the same. */
  predicate AtLeastAsMuch(a: SimulationInput, b: SimulationInput)
  {
    a.trafficReductionPct <= b.trafficReductionPct
    && a.ventilationIncreasePct <= b.ventilationIncreasePct
    && a.industryReductionPct <= b.industryReductionPct
    && a.baselineCo2 == b.baselineCo2 && a.baselineAqi == b.baselineAqi
    && a.baselineRisk == b.baselineRisk && a.baselineTemp == b.baselineTemp
  }

  predicate EffectsLe(x: Effects, y: Effects)
  {
    x.traffic <= y.traffic && x.ventilation <= y.ventilation && x.industry <= y.industry
  }

  lemma LeverEffectsMonotone(a: SimulationInput, b: SimulationInput, exp: real -> real)
    requires ExpLaws(exp) && AtLeastAsMuch(a, b)
    ensures EffectsLe(LeverEffects(a, exp), LeverEffects(b, exp))
  {
    LeverMonotone(a.trafficReductionPct, b.trafficReductionPct);
    LeverMonotone(a.ventilationIncreasePct, b.ventilationIncreasePct);
    LeverMonotone(a.industryReductionPct, b.industryReductionPct);
    DiminishingMonotone(Lever(a.trafficReductionPct), Lever(b.trafficReductionPct), 1.6, exp);
    DiminishingMonotone(Lever(a.ventilationIncreasePct), Lever(b.ventilationIncreasePct), 1.2, exp);
    DiminishingMonotone(Lever(a.industryReductionPct), Lever(b.industryReductionPct), 1.8, exp);
  }

  /** Stronger effects save at least as much CO₂ from a non-negative baseline. */
  lemma SavingsMonotone(base: real, x: Effects, y: Effects)
    requires base >= 0.0 && EffectsLe(x, y)
    ensures TotalSaved(Co2Savings(base, x)) <= TotalSaved(Co2Savings(base, y))
  {
    var tx := base * 0.27 * x.traffic;
    var ty := base * 0.27 * y.traffic;
    var ix := base * 0.33 * x.industry;
    var iy := base * 0.33 * y.industry;
    var vx := base * Min(x.ventilation, 0.30);
    var vy := base * Min(y.ventilation, 0.30);
    assert Co2Savings(base, x) == Savings(tx, ix, vx);
    assert Co2Savings(base, y) == Savings(ty, iy, vy);
    MulLeft(x.traffic, y.traffic, base * 0.27);
    MulLeft(x.industry, y.industry, base * 0.33);
    MulLeft(Min(x.ventilation, 0.30), Min(y.ventilation, 0.30), base);
    assert tx <= ty && ix <= iy && vx <= vy;
  }

  /** Stronger effects never leave a higher AQI behind a non-negative baseline. */
  lemma AqiMonotone(base: real, x: Effects, y: Effects)
    requires base >= 0.0 && EffectsLe(x, y)
    ensures NewAqi(base, y) <= NewAqi(base, x)
  {
    var tx := base * 0.35 * x.traffic;
    var ty := base * 0.35 * y.traffic;
    var ix := base * 0.40 * x.industry;
    var iy := base * 0.40 * y.industry;
    var vx := base * 0.20 * x.ventilation;
    var vy := base * 0.20 * y.ventilation;
    assert NewAqi(base, x) == Max(AQI_FLOOR, base - (tx + ix + vx));
    assert NewAqi(base, y) == Max(AQI_FLOOR, base - (ty + iy + vy));
    MulLeft(x.traffic, y.traffic, base * 0.35);
    MulLeft(x.industry, y.industry, base * 0.40);
    MulLeft(x.ventilation, y.ventilation, base * 0.20);
    assert tx <= ty && ix <= iy && vx <= vy;
  }

  /**
   * Pushing any lever further never projects more CO₂, a higher risk score
   * or a worse alert level, when the CO₂ and AQI baselines are non-negative.
   */
  lemma MoreInterventionNeverWorse(a: SimulationInput, b: SimulationInput, live: LiveReadings, exp: real -> real)
    requires ExpLaws(exp) && AtLeastAsMuch(a, b)
    requires ResolveBaselines(a, live).co2 >= 0.0 && ResolveBaselines(a, live).aqi >= 0.0
    ensures Simulate(b, live, exp).newPredictedCo2 <= Simulate(a, live, exp).newPredictedCo2
    ensures Simulate(b, live, exp).newRiskScore <= Simulate(a, live, exp).newRiskScore
    ensures AlertRank(Simulate(b, live, exp).alertLevel) <= AlertRank(Simulate(a, live, exp).alertLevel)
  {
    var pa := Project(a, live, exp);
    var pb := Project(b, live, exp);
    assert pa.base == pb.base;
    LeverEffectsMonotone(a, b, exp);
    SavingsMonotone(pa.base.co2, pa.effects, pb.effects);
    AqiMonotone(pa.base.aqi, pa.effects, pb.effects);
    SimRiskMonotone(pb.co2, pb.aqi, pa.co2, pa.aqi, pa.base.temp);
    ClassifyAlertMonotone(SimRiskScore(pb.co2, pb.aqi, pa.base.temp), SimRiskScore(pa.co2, pa.aqi, pa.base.temp));
  }
}
