/**
 * The rule-based recommendation engine: the action level of a risk level and
 * the ordered list of actions selected from the current and forecast CO₂,
 * the risk level and the trend. Each recommendation sentence is a
 * constructor of `Action`; `Text` gives its wording. The language-model
 * explanation is a parameter.
 */
module Recommendation {
  import opened Common

  datatype ActionLevel = Advisory | Warning | Emergency

  function ActionLevelName(l: ActionLevel): string
  {
    match l
    case Advisory => "advisory"
    case Warning => "warning"
    case Emergency => "emergency"
  }

  datatype Action = TrafficDiversion | HvacAlert | PublicAdvisory | PolicySuggestion | EmergencyAlert | MaintainProtocols

  function Text(a: Action): string
  {
    match a
    case TrafficDiversion => "Traffic Diversion: Reroute heavy vehicles from central districts."
    case HvacAlert => "HVAC Alert: Increase mechanical ventilation in public squares and schools."
    case PublicAdvisory => "Public Advisory: Voluntary reduction of private vehicle usage suggested."
    case PolicySuggestion => "Policy Suggestion: Implement temporary Green-Zone restrictions."
    case EmergencyAlert => "Emergency Alert: Deploy mobile air purification units to high-density zones."
    case MaintainProtocols => "Maintain current sustainability protocols."
  }

  /** The position of each action in the order the rules append them. */
  function Rank(a: Action): nat
  {
    match a
    case TrafficDiversion => 0
    case HvacAlert => 1
    case PublicAdvisory => 2
    case PolicySuggestion => 3
    case EmergencyAlert => 4
    case MaintainProtocols => 5
  }

  /** The context dictionary: each key may be absent. */
  datatype Context = Context(currentCo2: Option<real>, predictedCo2: Option<real>,
                             riskLevel: Option<string>, trend: Option<string>)

  datatype Decision = Decision(actionLevel: ActionLevel, recommendations: seq<Action>, explanation: string)

  function GetOr<T>(o: Option<T>, default: T): (r: T)
    ensures o.Some? ==> r == o.value
    ensures o.None? ==> r == default
  {
    if o.Some? then o.value else default
  }

  /** The action-level table, with "advisory" for any level it does not list. */
  function ActionLevelOf(risk: string): (l: ActionLevel)
    ensures l == Emergency <==> risk == "CRITICAL"
    ensures l == Warning <==> risk == "HIGH"
    ensures l == Advisory <==> risk != "HIGH" && risk != "CRITICAL"
  {
    if risk == "HIGH" then Warning
    else if risk == "CRITICAL" then Emergency
    else Advisory
  }

  predicate Severe(risk: string)
  {
    risk == "HIGH" || risk == "CRITICAL"
  }

  /** The actions the rules select, in the order they are appended. */
  function SelectActions(co2: real, predicted: real, risk: string, trend: string): (r: seq<Action>)
    ensures TrafficDiversion in r <==> Severe(risk) || (predicted > 600.0 && trend == "increasing")
    ensures HvacAlert in r <==> co2 > 500.0 || predicted > 550.0
    ensures PublicAdvisory in r <==> risk == "MODERATE"
    ensures PolicySuggestion in r <==> Severe(risk)
    ensures EmergencyAlert in r <==> risk == "CRITICAL"
    ensures MaintainProtocols !in r
    ensures |r| <= 4
  {
    (if Severe(risk) || (predicted > 600.0 && trend == "increasing") then [TrafficDiversion] else [])
    + (if co2 > 500.0 || predicted > 550.0 then [HvacAlert] else [])
    + (if risk == "MODERATE" then [PublicAdvisory] else if Severe(risk) then [PolicySuggestion] else [])
    + (if risk == "CRITICAL" then [EmergencyAlert] else [])
  }

  /** The selected actions come in the order the rules are written. */
  lemma SelectedInRuleOrder(co2: real, predicted: real, risk: string, trend: string)
    ensures var r := SelectActions(co2, predicted, risk, trend);
            forall i, j :: 0 <= i < j < |r| ==> Rank(r[i]) < Rank(r[j])
  {
    var t: seq<Action> := if Severe(risk) || (predicted > 600.0 && trend == "increasing") then [TrafficDiversion] else [];
    var h: seq<Action> := if co2 > 500.0 || predicted > 550.0 then [HvacAlert] else [];
    var p: seq<Action> := if risk == "MODERATE" then [PublicAdvisory] else if Severe(risk) then [PolicySuggestion] else [];
    var e: seq<Action> := if risk == "CRITICAL" then [EmergencyAlert] else [];
    var r := SelectActions(co2, predicted, risk, trend);
    assert r == t + h + p + e;
    forall i, j | 0 <= i < j < |r|
      ensures Rank(r[i]) < Rank(r[j])
    {
      RankOfPart(t, h, p, e, i);
      RankOfPart(t, h, p, e, j);
    }
  }

  /** Where an index of the concatenated parts falls, and the rank range of that part. */
  lemma RankOfPart(t: seq<Action>, h: seq<Action>, p: seq<Action>, e: seq<Action>, i: nat)
    requires t == [] || t == [TrafficDiversion]
    requires h == [] || h == [HvacAlert]
    requires p == [] || p == [PublicAdvisory] || p == [PolicySuggestion]
    requires e == [] || e == [EmergencyAlert]
    requires i < |t + h + p + e|
    ensures i < |t| ==> Rank((t + h + p + e)[i]) == 0
    ensures |t| <= i < |t| + |h| ==> Rank((t + h + p + e)[i]) == 1
    ensures |t| + |h| <= i < |t| + |h| + |p| ==> 2 <= Rank((t + h + p + e)[i]) <= 3
    ensures |t| + |h| + |p| <= i ==> Rank((t + h + p + e)[i]) == 4
  {
  }

  /**
   * `generate_recommendation`: missing keys default to 400 ppm now and
   * forecast, a SAFE risk level and a stable trend; an empty selection is
   * replaced by the single "maintain" recommendation.
   */
  function Generate(context: Context, explanation: string): (d: Decision)
    ensures var risk := GetOr(context.riskLevel, "SAFE");
            d.actionLevel == ActionLevelOf(risk)
    ensures var sel := SelectActions(GetOr(context.currentCo2, 400.0), GetOr(context.predictedCo2, 400.0),
                                     GetOr(context.riskLevel, "SAFE"), GetOr(context.trend, "stable"));
            (sel != [] ==> d.recommendations == sel) && (sel == [] ==> d.recommendations == [MaintainProtocols])
    ensures |d.recommendations| >= 1
    ensures d.explanation == explanation
  {
    var risk := GetOr(context.riskLevel, "SAFE");
    var sel := SelectActions(GetOr(context.currentCo2, 400.0), GetOr(context.predictedCo2, 400.0),
                             risk, GetOr(context.trend, "stable"));
    Decision(ActionLevelOf(risk), if sel != [] then sel else [MaintainProtocols], explanation)
  }

  /** An empty context is an advisory to keep the current protocols. */
  lemma EmptyContextMaintains(explanation: string)
    ensures var d := Generate(Context(None, None, None, None), explanation);
            d.actionLevel == Advisory && d.recommendations == [MaintainProtocols]
  {
  }

  /** "Maintain" is recommended exactly when no rule fires, and then alone. */
  lemma MaintainIffNothingFires(context: Context, explanation: string)
    ensures var d := Generate(context, explanation);
            var co2 := GetOr(context.currentCo2, 400.0);
            var predicted := GetOr(context.predictedCo2, 400.0);
            var risk := GetOr(context.riskLevel, "SAFE");
            var trend := GetOr(context.trend, "stable");
            (MaintainProtocols in d.recommendations <==>
               (!Severe(risk) && risk != "MODERATE" && co2 <= 500.0 && predicted <= 550.0))
            && (MaintainProtocols in d.recommendations ==> d.recommendations == [MaintainProtocols])
  {
    var sel := SelectActions(GetOr(context.currentCo2, 400.0), GetOr(context.predictedCo2, 400.0),
                             GetOr(context.riskLevel, "SAFE"), GetOr(context.trend, "stable"));
    if sel != [] {
      assert sel[0] in sel;
    }
  }

  /** A CRITICAL level is an emergency: diversion first, then the policy and the emergency alert last. */
  lemma CriticalFullResponse(context: Context, explanation: string)
    requires context.riskLevel == Some("CRITICAL")
    ensures var d := Generate(context, explanation);
            var r := d.recommendations;
            && d.actionLevel == Emergency
            && r[0] == TrafficDiversion
            && r[|r| - 1] == EmergencyAlert
            && PolicySuggestion in r
            && 3 <= |r| <= 4
  {
  }

  /** The recommendations never repeat an action and number at most four. */
  lemma NoRepeatedActions(context: Context, explanation: string)
    ensures var r := Generate(context, explanation).recommendations;
            (forall i, j :: 0 <= i < j < |r| ==> r[i] != r[j]) && |r| <= 4
  {
    var r := Generate(context, explanation).recommendations;
    SelectedInRuleOrder(GetOr(context.currentCo2, 400.0), GetOr(context.predictedCo2, 400.0),
                        GetOr(context.riskLevel, "SAFE"), GetOr(context.trend, "stable"));
    forall i, j | 0 <= i < j < |r|
      ensures r[i] != r[j]
    {
      assert Rank(r[i]) < Rank(r[j]);
    }
  }
}
