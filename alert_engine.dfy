/**
 * The alert engine: threshold rules over a reading dictionary and the
 * anomaly events of the detector become alert records, each subject to a
 * five-minute cooldown per (city, alert type), kept newest first in a
 * bounded history of 200 and counted.
 */
module Alerts {
  import opened Common
  import opened Anomaly

  const ALERT_COOLDOWN_SECS: real := 300.0
  const ALERT_HISTORY_CAP: nat := 200

  datatype ThresholdRule = ThresholdRule(
    field: string,
    lowWarn: real,
    mediumWarn: real,
    highWarn: real,
    critical: real,
    alertType: string,
    unit: string)

  const DefaultRules: seq<ThresholdRule> := [
    ThresholdRule("co2_ppm", 600.0, 700.0, 800.0, 950.0, "CO2_HIGH", "ppm"),
    ThresholdRule("aqi", 100.0, 150.0, 200.0, 300.0, "AQI_HIGH", "AQI"),
    ThresholdRule("risk_score", 50.0, 60.0, 70.0, 85.0, "RISK_HIGH", "%"),
    ThresholdRule("temperature_c", 35.0, 38.0, 40.0, 45.0, "HEAT_HIGH", "°C"),
    ThresholdRule("carbon_score", 0.7, 0.8, 0.9, 0.95, "CARBON_HIGH", "")
  ]

  // ---------------------------------------------------------------------------
  // Threshold classification
  // ---------------------------------------------------------------------------

  /**
   * `_classify_threshold`: the highest band whose bound the value reaches,
   * checked from CRITICAL down, inclusive. A NaN reaches no bound; +inf reaches all.
   */
  function ClassifyThreshold(rule: ThresholdRule, value: Reading): (r: Option<Severity>)
    ensures value.Missing? || value.NaN? || value.NegInf? ==> r.None?
    ensures value.PosInf? ==> r == Some(Critical)
    ensures value.Finite? && WellOrdered(rule) ==> (r.Some? <==> value.value >= rule.lowWarn)
  {
    match value
    case Missing => None
    case NaN => None
    case NegInf => None
    case PosInf => Some(Critical)
    case Finite(v) =>
      if v >= rule.critical then Some(Critical)
      else if v >= rule.highWarn then Some(High)
      else if v >= rule.mediumWarn then Some(Medium)
      else if v >= rule.lowWarn then Some(Low)
      else None
  }

  predicate WellOrdered(rule: ThresholdRule)
  {
    rule.lowWarn <= rule.mediumWarn <= rule.highWarn <= rule.critical
  }

  /** No alert ranks 0; an alert ranks one above its severity. */
  function AlertRank(s: Option<Severity>): nat
  {
    if s.None? then 0 else Rank(s.value) + 1
  }

  /** For an ordered rule, each severity is exactly the band between its bound and the next. */
  lemma ClassifyBands(rule: ThresholdRule, v: real)
    requires WellOrdered(rule)
    ensures ClassifyThreshold(rule, Finite(v)) == Some(Critical) <==> v >= rule.critical
    ensures ClassifyThreshold(rule, Finite(v)) == Some(High) <==> rule.highWarn <= v < rule.critical
    ensures ClassifyThreshold(rule, Finite(v)) == Some(Medium) <==> rule.mediumWarn <= v < rule.highWarn
    ensures ClassifyThreshold(rule, Finite(v)) == Some(Low) <==> rule.lowWarn <= v < rule.mediumWarn
    ensures ClassifyThreshold(rule, Finite(v)).None? <==> v < rule.lowWarn
  {
  }

  /** For an ordered rule, a higher reading never gets a lower severity. */
  lemma ClassifyMonotone(rule: ThresholdRule, a: real, b: real)
    requires WellOrdered(rule) && a <= b
    ensures AlertRank(ClassifyThreshold(rule, Finite(a))) <= AlertRank(ClassifyThreshold(rule, Finite(b)))
  {
  }

  /** Every default rule's bounds rise strictly from LOW to CRITICAL, so every band is non-empty. */
  lemma DefaultRulesWellOrdered()
    ensures forall i :: 0 <= i < |DefaultRules| ==> WellOrdered(DefaultRules[i])
    ensures forall i :: 0 <= i < |DefaultRules| ==>
              DefaultRules[i].lowWarn < DefaultRules[i].mediumWarn < DefaultRules[i].highWarn < DefaultRules[i].critical
  {
  }

  /** With the default CO₂ rule, 800 ppm is HIGH, 950 CRITICAL, and anything under 600 raises nothing. */
  lemma DefaultCo2Bands(v: real)
    ensures ClassifyThreshold(DefaultRules[0], Finite(v)) == Some(High) <==> 800.0 <= v < 950.0
    ensures ClassifyThreshold(DefaultRules[0], Finite(v)).None? <==> v < 600.0
  {
    ClassifyBands(DefaultRules[0], v);
  }

  // ---------------------------------------------------------------------------
  // Alert records
  // ---------------------------------------------------------------------------

  /**
   * The message of an alert: for a threshold alert its field, reading, unit,
   * place and severity; for an anomaly alert the detector's event.
   */
  datatype AlertMessage =
    | ThresholdMessage(field: string, value: Reading, unit: string, place: string, severity: Severity)
    | EventMessage(event: AnomalyEvent)

  datatype AlertRecord = AlertRecord(
    alertType: string,
    severity: Severity,
    message: AlertMessage,
    city: Option<string>,
    timestamp: real)

  /** `city or '_'`. */
  function CityLabel(city: Option<string>): (r: string)
    ensures r != []
  {
    if city.None? || city.value == "" then "_" else city.value
  }

  /** `city or 'unknown city'`. */
  function PlaceName(city: Option<string>): string
  {
    if city.None? || city.value == "" then "unknown city" else city.value
  }

  /** `f"{city or '_'}:{alert_type}"`. */
  function CooldownKey(city: Option<string>, alertType: string): string
  {
    CityLabel(city) + ":" + alertType
  }

  /** The position of the first `c` in `s`, or `|s|` when there is none. */
  function IndexOf(s: string, c: char): (r: nat)
    ensures r <= |s|
  {
    if s == [] then 0 else if s[0] == c then 0 else 1 + IndexOf(s[1..], c)
  }

  lemma {:induction false} IndexOfAfter(l: string, c: char, t: string)
    requires c !in l
    ensures IndexOf(l + [c] + t, c) == |l|
  {
    if l != [] {
      assert (l + [c] + t)[1..] == l[1..] + [c] + t;
      IndexOfAfter(l[1..], c, t);
    }
  }

  /**
   * Keys of cities whose names hold no `:` are distinct for distinct
   * (city, type) pairs, so such cities never share a cooldown.
   */
  lemma CooldownKeyInjective(c1: Option<string>, t1: string, c2: Option<string>, t2: string)
    requires ':' !in CityLabel(c1) && ':' !in CityLabel(c2)
    requires CooldownKey(c1, t1) == CooldownKey(c2, t2)
    ensures CityLabel(c1) == CityLabel(c2) && t1 == t2
  {
    var l1, l2 := CityLabel(c1), CityLabel(c2);
    var key := l1 + ":" + t1;
    assert key == l2 + ":" + t2;
    IndexOfAfter(l1, ':', t1);
    IndexOfAfter(l2, ':', t2);
    assert l1 == key[..|l1|] == l2;
    assert t1 == key[|l1| + 1..] == t2;
  }

  // ---------------------------------------------------------------------------
  // Candidates: what `evaluate` tries to fire, in order
  // ---------------------------------------------------------------------------

  datatype Candidate = Candidate(alertType: string, severity: Severity, message: AlertMessage)

  /** `readings.get(field)`: a missing key reads as a missing value. */
  function Lookup(readings: map<string, Reading>, field: string): Reading
  {
    if field in readings then readings[field] else Missing
  }

  /**
   * One pass of the rule loop of `evaluate`: the alert the rule raises, if its
   * field is present and the reading reaches one of its bands.
   */
  function RuleAlert(rule: ThresholdRule, readings: map<string, Reading>, city: Option<string>): (r: seq<Candidate>)
    ensures |r| <= 1
    ensures r != [] <==> !Lookup(readings, rule.field).Missing? && ClassifyThreshold(rule, Lookup(readings, rule.field)).Some?
    ensures r != [] ==> RaisedBy(rule, readings, r[0])
  {
    var value := Lookup(readings, rule.field);
    var sev := ClassifyThreshold(rule, value);
    if value.Missing? || sev.None? then []
    else [Candidate(rule.alertType, sev.value, ThresholdMessage(rule.field, value, rule.unit, PlaceName(city), sev.value))]
  }

  /** The body of the rule loop, for fixed readings and city. */
  function RuleStep(readings: map<string, Reading>, city: Option<string>): ThresholdRule -> seq<Candidate>
  {
    rule => RuleAlert(rule, readings, city)
  }

  /** Part A of `evaluate`: one candidate per rule whose field is present and reaches a band. */
  function ThresholdCandidates(rules: seq<ThresholdRule>, readings: map<string, Reading>,
                               city: Option<string>): (r: seq<Candidate>)
    ensures |r| <= |rules|
  {
    var f := RuleStep(readings, city);
    assert forall i :: 0 <= i < |rules| ==> |f(rules[i])| <= 1 by {
      forall i | 0 <= i < |rules| ensures |f(rules[i])| <= 1 {
        assert f(rules[i]) == RuleAlert(rules[i], readings, city);
      }
    }
    FlatMapAtMostOne(f, rules);
    FlatMap(f, rules)
  }

  /**
   * The loop visits the rules in order: the candidates of two consecutive
   * lists of rules are the candidates of the first followed by those of the second.
   */
  lemma ThresholdCandidatesAppend(rs: seq<ThresholdRule>, more: seq<ThresholdRule>,
                                  readings: map<string, Reading>, city: Option<string>)
    ensures ThresholdCandidates(rs + more, readings, city)
            == ThresholdCandidates(rs, readings, city) + ThresholdCandidates(more, readings, city)
  {
    FlatMapAppend(RuleStep(readings, city), rs, more);
  }

  /** Appending one rule appends exactly the alert that rule raises, if any. */
  lemma ThresholdCandidatesSnoc(rs: seq<ThresholdRule>, rule: ThresholdRule,
                                readings: map<string, Reading>, city: Option<string>)
    ensures ThresholdCandidates(rs + [rule], readings, city)
            == ThresholdCandidates(rs, readings, city) + RuleAlert(rule, readings, city)
  {
    var f := RuleStep(readings, city);
    FlatMapAppend(f, rs, [rule]);
    assert FlatMap(f, [rule]) == f(rule) + FlatMap(f, []);
  }

  /** Every rule whose field is present and whose reading reaches a band raises its alert. */
  lemma ThresholdCandidatesComplete(rules: seq<ThresholdRule>, readings: map<string, Reading>,
                                    city: Option<string>, i: nat)
    requires i < |rules|
    requires !Lookup(readings, rules[i].field).Missing?
    requires ClassifyThreshold(rules[i], Lookup(readings, rules[i].field)).Some?
    ensures var value := Lookup(readings, rules[i].field);
            var sev := ClassifyThreshold(rules[i], value).value;
            Candidate(rules[i].alertType, sev, ThresholdMessage(rules[i].field, value, rules[i].unit, PlaceName(city), sev))
              in ThresholdCandidates(rules, readings, city)
  {
    var f := RuleStep(readings, city);
    var c := RuleAlert(rules[i], readings, city)[0];
    assert f(rules[i]) == [c];
    FlatMapIncludes(f, rules, i, c);
  }

  /** Every threshold candidate comes from a rule whose reading reached that rule's band. */
  lemma ThresholdCandidatesSound(rules: seq<ThresholdRule>, readings: map<string, Reading>,
                                 city: Option<string>)
    ensures forall c :: c in ThresholdCandidates(rules, readings, city) ==>
              exists i :: 0 <= i < |rules| && RaisedBy(rules[i], readings, c)
  {
    var f := RuleStep(readings, city);
    forall c | c in ThresholdCandidates(rules, readings, city)
      ensures exists i :: 0 <= i < |rules| && RaisedBy(rules[i], readings, c)
    {
      FlatMapMember(f, rules, c);
      var i :| 0 <= i < |rules| && c in f(rules[i]);
      assert f(rules[i]) == RuleAlert(rules[i], readings, city);
      assert RaisedBy(rules[i], readings, c);
    }
  }

  /** Part B of `evaluate`: one candidate per anomaly event, of type `ANOMALY_<FIELD>`. */
  function AnomalyCandidates(events: seq<AnomalyEvent>): (r: seq<Candidate>)
    ensures |r| == |events|
    ensures forall i :: 0 <= i < |events| ==>
              r[i] == Candidate("ANOMALY_" + Upper(events[i].field), events[i].severity, EventMessage(events[i]))
  {
    if events == [] then []
    else [Candidate("ANOMALY_" + Upper(events[0].field), events[0].severity, EventMessage(events[0]))]
         + AnomalyCandidates(events[1..])
  }

  /** `c` is the alert that `rule` raises for these readings. */
  predicate RaisedBy(rule: ThresholdRule, readings: map<string, Reading>, c: Candidate)
  {
    var value := Lookup(readings, rule.field);
    !value.Missing? && ClassifyThreshold(rule, value) == Some(c.severity) && c.alertType == rule.alertType
  }

  /** `rules or DEFAULT_RULES`: no list or an empty list means the defaults. */
  function EffectiveRules(rules: Option<seq<ThresholdRule>>): (r: seq<ThresholdRule>)
    ensures r != []
  {
    if rules.None? || rules.value == [] then DefaultRules else rules.value
  }

  // ---------------------------------------------------------------------------
  // Firing, on values
  // ---------------------------------------------------------------------------

  datatype EngineState = EngineState(cooldowns: map<string, real>, history: seq<AlertRecord>, totalFired: nat)

  function LastFired(cooldowns: map<string, real>, key: string): real
  {
    if key in cooldowns then cooldowns[key] else 0.0
  }

  function ToRecord(c: Candidate, city: Option<string>, now: real): AlertRecord
  {
    AlertRecord(c.alertType, c.severity, c.message, city, now)
  }

  /** `_maybe_fire` at time `now`. */
  function FireStep(st: EngineState, c: Candidate, city: Option<string>, now: real): (r: (Option<AlertRecord>, EngineState))
    ensures r.0.Some? <==> now - LastFired(st.cooldowns, CooldownKey(city, c.alertType)) >= ALERT_COOLDOWN_SECS
    ensures r.0.Some? ==> r.0.value == ToRecord(c, city, now)
                          && r.1.totalFired == st.totalFired + 1
                          && r.1.history == PrependBounded(r.0.value, st.history, ALERT_HISTORY_CAP)
                          && r.1.cooldowns == st.cooldowns[CooldownKey(city, c.alertType) := now]
    ensures r.0.None? ==> r.1 == st
  {
    var key := CooldownKey(city, c.alertType);
    if now - LastFired(st.cooldowns, key) < ALERT_COOLDOWN_SECS then (None, st)
    else
      var rec := ToRecord(c, city, now);
      (Some(rec), EngineState(st.cooldowns[key := now], PrependBounded(rec, st.history, ALERT_HISTORY_CAP),
                              st.totalFired + 1))
  }

  /** The candidates fired in order, all at time `now`. */
  function FireAll(st: EngineState, cs: seq<Candidate>, city: Option<string>, now: real)
    : (r: (seq<AlertRecord>, EngineState))
    ensures |r.0| <= |cs|
    ensures r.1.totalFired == st.totalFired + |r.0|
    decreases |cs|
  {
    if cs == [] then ([], st)
    else
      var (e, st1) := FireStep(st, cs[0], city, now);
      var (rest, st2) := FireAll(st1, cs[1..], city, now);
      (if e.Some? then [e.value] + rest else rest, st2)
  }

  /** The key a record holds its cooldown under. */
  function KeyOf(r: AlertRecord): string
  {
    CooldownKey(r.city, r.alertType)
  }

  /** Every record in `fired` was out of cooldown in `st` at time `now`. */
  predicate FiredFresh(st: EngineState, fired: seq<AlertRecord>, now: real)
  {
    forall i :: 0 <= i < |fired| ==> now - LastFired(st.cooldowns, KeyOf(fired[i])) >= ALERT_COOLDOWN_SECS
  }

  predicate KeysDistinct(fired: seq<AlertRecord>)
  {
    forall i, j :: 0 <= i < j < |fired| ==> KeyOf(fired[i]) != KeyOf(fired[j])
  }

  /** Every record in `fired` has its cooldown set to `now` in `st`. */
  predicate CooldownsSet(fired: seq<AlertRecord>, st: EngineState, now: real)
  {
    forall i :: 0 <= i < |fired| ==> KeyOf(fired[i]) in st.cooldowns && st.cooldowns[KeyOf(fired[i])] == now
  }

  /** `FireAll` on a non-empty list: the first candidate's step, then the rest from the state it leaves. */
  lemma FireAllUnfold(st: EngineState, cs: seq<Candidate>, city: Option<string>, now: real)
    requires cs != []
    ensures var step := FireStep(st, cs[0], city, now);
            var tail := FireAll(step.1, cs[1..], city, now);
            FireAll(st, cs, city, now)
              == (if step.0.Some? then [step.0.value] + tail.0 else tail.0, tail.1)
  {
  }

  /** Every record fired carries the call's city and time. */
  lemma {:induction false} FireAllStamps(st: EngineState, cs: seq<Candidate>, city: Option<string>, now: real)
    ensures forall r :: r in FireAll(st, cs, city, now).0 ==> r.city == city && r.timestamp == now
    decreases |cs|
  {
    if cs != [] {
      FireAllUnfold(st, cs, city, now);
      FireAllStamps(FireStep(st, cs[0], city, now).1, cs[1..], city, now);
    }
  }

  /** Every record fired was out of cooldown before the call. */
  lemma {:induction false} FireAllFresh(st: EngineState, cs: seq<Candidate>, city: Option<string>, now: real)
    ensures FiredFresh(st, FireAll(st, cs, city, now).0, now)
    decreases |cs|
  {
    if cs != [] {
      var step := FireStep(st, cs[0], city, now);
      var st1 := step.1;
      FireAllUnfold(st, cs, city, now);
      FireAllFresh(st1, cs[1..], city, now);
      var rest := FireAll(st1, cs[1..], city, now).0;
      if step.0.Some? {
        var e := step.0.value;
        var fired := [e] + rest;
        forall i | 0 <= i < |fired|
          ensures now - LastFired(st.cooldowns, KeyOf(fired[i])) >= ALERT_COOLDOWN_SECS
        {
          if i > 0 {
            assert fired[i] == rest[i - 1];
            assert now - LastFired(st1.cooldowns, KeyOf(rest[i - 1])) >= ALERT_COOLDOWN_SECS;
            assert KeyOf(rest[i - 1]) != KeyOf(e);
          }
        }
      }
    }
  }

  /** No two records fired in one call share a cooldown key. */
  lemma {:induction false} FireAllKeysDistinct(st: EngineState, cs: seq<Candidate>, city: Option<string>, now: real)
    ensures KeysDistinct(FireAll(st, cs, city, now).0)
    decreases |cs|
  {
    if cs != [] {
      var step := FireStep(st, cs[0], city, now);
      var st1 := step.1;
      FireAllUnfold(st, cs, city, now);
      FireAllKeysDistinct(st1, cs[1..], city, now);
      FireAllFresh(st1, cs[1..], city, now);
      var rest := FireAll(st1, cs[1..], city, now).0;
      if step.0.Some? {
        var e := step.0.value;
        var fired := [e] + rest;
        assert LastFired(st1.cooldowns, KeyOf(e)) == now;
        forall i, j | 0 <= i < j < |fired|
          ensures KeyOf(fired[i]) != KeyOf(fired[j])
        {
          assert fired[j] == rest[j - 1];
          assert now - LastFired(st1.cooldowns, KeyOf(rest[j - 1])) >= ALERT_COOLDOWN_SECS;
          if i > 0 {
            assert fired[i] == rest[i - 1];
          }
        }
      }
    }
  }

  /** After the call every record fired has its cooldown set to `now`. */
  lemma {:induction false} FireAllSetsCooldowns(st: EngineState, cs: seq<Candidate>, city: Option<string>, now: real)
    ensures CooldownsSet(FireAll(st, cs, city, now).0, FireAll(st, cs, city, now).1, now)
    decreases |cs|
  {
    if cs != [] {
      var step := FireStep(st, cs[0], city, now);
      var st1 := step.1;
      FireAllUnfold(st, cs, city, now);
      FireAllSetsCooldowns(st1, cs[1..], city, now);
      FireAllKeepsCooldowns(st1, cs[1..], city, now);
      var rest := FireAll(st1, cs[1..], city, now).0;
      var st2 := FireAll(st1, cs[1..], city, now).1;
      if step.0.Some? {
        var e := step.0.value;
        var fired := [e] + rest;
        assert KeyOf(e) in st1.cooldowns && st1.cooldowns[KeyOf(e)] == now;
        forall i | 0 <= i < |fired|
          ensures KeyOf(fired[i]) in st2.cooldowns && st2.cooldowns[KeyOf(fired[i])] == now
        {
          if i > 0 {
            assert fired[i] == rest[i - 1];
          }
        }
      }
    }
  }

  /**
   * Within one `evaluate` (one time `now`), every record fired was out of
   * cooldown beforehand, carries the call's city and time, has its cooldown
   * set afterwards, and no two share a key: the first alert of a key
   * silences the rest of the call.
   */
  lemma FireAllOncePerKey(st: EngineState, cs: seq<Candidate>, city: Option<string>, now: real)
    ensures FiredFresh(st, FireAll(st, cs, city, now).0, now)
    ensures forall r :: r in FireAll(st, cs, city, now).0 ==> r.city == city && r.timestamp == now
    ensures KeysDistinct(FireAll(st, cs, city, now).0)
    ensures CooldownsSet(FireAll(st, cs, city, now).0, FireAll(st, cs, city, now).1, now)
  {
    FireAllFresh(st, cs, city, now);
    FireAllStamps(st, cs, city, now);
    FireAllKeysDistinct(st, cs, city, now);
    FireAllSetsCooldowns(st, cs, city, now);
  }

  /** Firing never removes a cooldown entry, and only ever sets one to `now`. */
  lemma {:induction false} FireAllKeepsCooldowns(st: EngineState, cs: seq<Candidate>, city: Option<string>, now: real)
    ensures forall k :: k in st.cooldowns ==> k in FireAll(st, cs, city, now).1.cooldowns
    ensures forall k :: k in FireAll(st, cs, city, now).1.cooldowns ==>
              FireAll(st, cs, city, now).1.cooldowns[k] == now
              || (k in st.cooldowns && FireAll(st, cs, city, now).1.cooldowns[k] == st.cooldowns[k])
    decreases |cs|
  {
    if cs != [] {
      var st1 := FireStep(st, cs[0], city, now).1;
      FireAllKeepsCooldowns(st1, cs[1..], city, now);
    }
  }

  /** Every record fired is one of the candidates, stamped with the call's city and time. */
  lemma {:induction false} FireAllFromCandidates(st: EngineState, cs: seq<Candidate>, city: Option<string>, now: real)
    ensures forall r :: r in FireAll(st, cs, city, now).0 ==> exists c :: c in cs && r == ToRecord(c, city, now)
    decreases |cs|
  {
    if cs != [] {
      var st1 := FireStep(st, cs[0], city, now).1;
      FireAllFromCandidates(st1, cs[1..], city, now);
      forall r | r in FireAll(st, cs, city, now).0
        ensures exists c :: c in cs && r == ToRecord(c, city, now)
      {
        if r !in FireAll(st1, cs[1..], city, now).0 {
          assert r == ToRecord(cs[0], city, now);
        } else {
          var c :| c in cs[1..] && r == ToRecord(c, city, now);
          assert c in cs;
        }
      }
    }
  }

  /** A candidate whose key was never fired, or fired 300 s or more ago, fires. */
  lemma FiresAfterCooldown(st: EngineState, c: Candidate, city: Option<string>, earlier: real, now: real)
    requires CooldownKey(city, c.alertType) in st.cooldowns
    requires st.cooldowns[CooldownKey(city, c.alertType)] == earlier
    ensures FireStep(st, c, city, now).0.Some? <==> now >= earlier + ALERT_COOLDOWN_SECS
  {
  }

  // ---------------------------------------------------------------------------
  // The engine object
  // ---------------------------------------------------------------------------

  class AlertEngine {
    const rules: seq<ThresholdRule>
    var cooldowns: map<string, real>
    var history: seq<AlertRecord>
    var totalFired: nat
    /** Every record fired so far, oldest first. */
    ghost var log: seq<AlertRecord>

    /** The history is the newest 200 records of the log, newest first, and the count is the log's length. */
    ghost predicate Valid()
      reads this
    {
      history == NewestFirst(log, ALERT_HISTORY_CAP) && totalFired == |log|
    }

    function State(): EngineState
      reads this
    {
      EngineState(cooldowns, history, totalFired)
    }

    constructor(rules: Option<seq<ThresholdRule>>)
      ensures Valid()
      ensures this.rules == EffectiveRules(rules)
      ensures cooldowns == map[] && history == [] && totalFired == 0 && log == []
    {
      this.rules := EffectiveRules(rules);
      cooldowns := map[];
      history := [];
      totalFired := 0;
      log := [];
    }

    /** `_maybe_fire`; `now` is the clock reading. */
    method MaybeFire(c: Candidate, city: Option<string>, now: real) returns (rec: Option<AlertRecord>)
      requires Valid()
      modifies this
      ensures Valid()
      ensures (rec, State()) == FireStep(old(State()), c, city, now)
      ensures log == old(log) + (if rec.Some? then [rec.value] else [])
    {
      var key := CooldownKey(city, c.alertType);
      if now - LastFired(cooldowns, key) < ALERT_COOLDOWN_SECS {
        rec := None;
        assert log + [] == log;
        return;
      }
      cooldowns := cooldowns[key := now];
      var r := ToRecord(c, city, now);
      PrependNewestFirst(log, r, ALERT_HISTORY_CAP);
      history := PrependBounded(r, history, ALERT_HISTORY_CAP);
      totalFired := totalFired + 1;
      log := log + [r];
      rec := Some(r);
    }

    /** Fires the candidates in order, collecting the records that were not in cooldown. */
    method FireEach(cs: seq<Candidate>, city: Option<string>, now: real) returns (fired: seq<AlertRecord>)
      requires Valid()
      modifies this
      ensures Valid()
      ensures (fired, State()) == FireAll(old(State()), cs, city, now)
      ensures log == old(log) + fired
    {
      fired := [];
      var i := 0;
      ghost var total := FireAll(State(), cs, city, now);
      assert cs[i..] == cs;
      assert fired + total.0 == total.0;
      while i < |cs|
        invariant 0 <= i <= |cs|
        invariant Valid()
        invariant log == old(log) + fired
        invariant fired + FireAll(State(), cs[i..], city, now).0 == total.0
        invariant FireAll(State(), cs[i..], city, now).1 == total.1
      {
        ghost var fired0 := fired;
        assert cs[i..][1..] == cs[i + 1..];
        var rec := MaybeFire(cs[i], city, now);
        if rec.Some? {
          AppendAssoc(fired0, [rec.value], FireAll(State(), cs[i + 1..], city, now).0);
          AppendAssoc(old(log), fired0, [rec.value]);
          fired := fired + [rec.value];
        } else {
          assert log == old(log) + fired;
        }
        i := i + 1;
      }
      assert cs[i..] == [];
      assert fired + [] == fired;
    }

    /**
     * `evaluate`: the threshold rules in order, then the anomaly events in
     * order, each through the cooldown; returns the records fired.
     */
    method Evaluate(readings: map<string, Reading>, city: Option<string>, anomalies: seq<AnomalyEvent>, now: real)
      returns (fired: seq<AlertRecord>)
      requires Valid()
      modifies this
      ensures Valid()
      ensures (fired, State())
              == FireAll(old(State()), ThresholdCandidates(rules, readings, city) + AnomalyCandidates(anomalies), city, now)
      ensures log == old(log) + fired
    {
      fired := FireEach(ThresholdCandidates(rules, readings, city) + AnomalyCandidates(anomalies), city, now);
    }

    /** `get_recent(limit)`: the newest records first, `history[:limit]`. */
    function GetRecent(limit: int): (r: seq<AlertRecord>)
      reads this
      ensures |r| == (if limit >= 0 then (if limit <= |history| then limit else |history|)
                      else (if |history| + limit >= 0 then |history| + limit else 0))
      ensures r == history[..|r|]
    {
      PyPrefix(history, limit)
    }
  }
}
