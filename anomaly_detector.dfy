/**
 * The per-sensor, per-field sliding-window anomaly detector.
 *
 * Each finite reading is judged against a snapshot of the window taken
 * before the reading is appended: with at least `minWindow` earlier values
 * a z-score test (when the spread is not negligible) and, from twenty
 * values on, an IQR fence test are run; the reading is anomalous when
 * either fires. A repeat alert for the same (sensor, field) within the
 * cooldown is swallowed.
 *
 * Square roots are not modelled. The z-score |value - mean| / std is kept
 * as its two parts, the deviation and the variance (`ZScore`), and every
 * comparison `z > t` is made on squares (`Exceeds`); `ExceedsAgrees` proves
 * that this is the same test as the one on the square root.
 */
module Anomaly {
  import opened Common
  import opened WindowStats

  const WINDOW_SIZE: nat := 60
  const MIN_WINDOW: int := 10
  const Z_THRESHOLD: real := 2.8
  const IQR_MULTIPLIER: real := 2.5
  const COOLDOWN_SECS: real := 120.0
  /** The z-score test runs only when std > 1e-10, that is variance > 1e-20. */
  const STD_EPSILON: real := 0.0000000001
  const VARIANCE_EPSILON: real := 0.00000000000000000001
  /** The IQR fence needs at least this many earlier values. */
  const IQR_MIN_COUNT: int := 20
  const HISTORY_CAP: nat := 500

  /** A reading as it arrives: absent, not a number, infinite, or a finite float. */
  datatype Reading = Missing | NaN | PosInf | NegInf | Finite(value: real)

  datatype Config = Config(
    windowSize: nat,
    minWindow: int,
    zThreshold: real,
    iqrMultiplier: real,
    cooldown: real)

  const DefaultConfig: Config :=
    Config(WINDOW_SIZE, MIN_WINDOW, Z_THRESHOLD, IQR_MULTIPLIER, COOLDOWN_SECS)

  // ---------------------------------------------------------------------------
  // The z-score, on squares
  // ---------------------------------------------------------------------------

  /** The z-score |deviation| / sqrt(variance), kept as its two parts. */
  datatype ZScore = ZScore(deviation: real, variance: real)

  /** `z > t`, stated without the square root. */
  predicate Exceeds(z: ZScore, t: real)
  {
    t < 0.0 || z.deviation * z.deviation > t * t * z.variance
  }

  function Abs(x: real): real { if x >= 0.0 then x else -x }

  /** On non-negative numbers, comparing squares is comparing the numbers. */
  lemma SquareMonotone(z: real, t: real)
    requires z >= 0.0 && t >= 0.0
    ensures z > t <==> z * z > t * t
  {
    if z > t {
      MulPos(z - t, z + t);
      assert (z - t) * (z + t) == z * z - t * t;
    } else {
      MulNonneg(t - z, t + z);
      assert (t - z) * (t + z) == t * t - z * z;
    }
  }

  lemma DivideGreater(a: real, s: real, t: real)
    requires s > 0.0
    ensures a / s > t <==> a > t * s
  {
    var q := a / s;
    assert q * s == a;
    if q > t {
      MulPos(q - t, s);
      assert (q - t) * s == q * s - t * s;
    } else {
      MulNonneg(t - q, s);
      assert (t - q) * s == t * s - q * s;
    }
  }

  /**
   * For any positive standard deviation `std` whose square is the variance,
   * the test on squares is exactly the source's `abs(d / std) > t`.
   */
  lemma {:induction false} ExceedsAgrees(z: ZScore, std: real, t: real)
    requires std > 0.0 && std * std == z.variance
    ensures Abs(z.deviation) / std > t <==> Exceeds(z, t)
  {
    var d := z.deviation;
    var a := Abs(d);
    assert a * a == d * d;
    DivideGreater(a, std, t);
    if t >= 0.0 {
      MulNonneg(t, std);
      SquareMonotone(a, t * std);
      assert (t * std) * (t * std) == t * t * (std * std);
    } else {
      MulNonneg(a, 1.0 / std);
      assert a / std == a * (1.0 / std);
    }
  }

  /** The guard `std > 1e-10` is the guard `variance > 1e-20`. */
  lemma StdGuardAgrees(variance: real, std: real)
    requires std >= 0.0 && std * std == variance
    ensures std > STD_EPSILON <==> variance > VARIANCE_EPSILON
  {
    SquareMonotone(std, STD_EPSILON);
  }

  /** A score that exceeds a non-negative threshold exceeds every lower one. */
  lemma ExceedsMonotone(z: ZScore, t1: real, t2: real)
    requires z.variance >= 0.0 && t1 <= t2
    requires Exceeds(z, t2)
    ensures Exceeds(z, t1)
  {
    if t1 >= 0.0 {
      SquareMonotone(t2, t1);
      MulLeft(t1 * t1, t2 * t2, z.variance);
    }
  }

  // ---------------------------------------------------------------------------
  // Severity
  // ---------------------------------------------------------------------------

  datatype Severity = Low | Medium | High | Critical

  function Rank(s: Severity): nat
  {
    match s
    case Low => 0
    case Medium => 1
    case High => 2
    case Critical => 3
  }

  /** `_classify_severity` on the real z-score, as the source writes it. */
  function SeverityOfScore(z: Option<real>): (r: Severity)
    ensures z.None? ==> r == Low
    ensures z.Some? ==> (Rank(r) >= 1 <==> z.value > 3.0) && (Rank(r) >= 2 <==> z.value > 4.0)
                        && (Rank(r) >= 3 <==> z.value > 5.0)
  {
    if z.None? then Low
    else if z.value > 5.0 then Critical
    else if z.value > 4.0 then High
    else if z.value > 3.0 then Medium
    else Low
  }

  /** `_classify_severity` on the z-score kept as deviation and variance. */
  function ClassifySeverity(z: Option<ZScore>): (r: Severity)
    ensures z.None? ==> r == Low
    ensures z.Some? && z.value.variance >= 0.0 ==>
              (Rank(r) >= 1 <==> Exceeds(z.value, 3.0)) && (Rank(r) >= 2 <==> Exceeds(z.value, 4.0))
              && (Rank(r) >= 3 <==> Exceeds(z.value, 5.0))
  {
    if z.None? then Low
    else if Exceeds(z.value, 5.0) then Critical
    else if Exceeds(z.value, 4.0) then High
    else if Exceeds(z.value, 3.0) then Medium
    else Low
  }

  /** The severity on squares is the source's severity of |d| / std. */
  lemma ClassifySeverityAgrees(z: ZScore, std: real)
    requires std > 0.0 && std * std == z.variance
    ensures ClassifySeverity(Some(z)) == SeverityOfScore(Some(Abs(z.deviation) / std))
  {
    ExceedsAgrees(z, std, 5.0);
    ExceedsAgrees(z, std, 4.0);
    ExceedsAgrees(z, std, 3.0);
  }

  /** Against the same spread, a larger deviation is never less severe. */
  lemma SeverityMonotone(d1: real, d2: real, variance: real)
    requires variance >= 0.0 && d1 * d1 <= d2 * d2
    ensures Rank(ClassifySeverity(Some(ZScore(d1, variance))))
            <= Rank(ClassifySeverity(Some(ZScore(d2, variance))))
  {
    ExceedsBySquares(d1, d2, variance, 3.0);
    ExceedsBySquares(d1, d2, variance, 4.0);
    ExceedsBySquares(d1, d2, variance, 5.0);
  }

  /** A deviation with a larger square exceeds every threshold the smaller one exceeds. */
  lemma ExceedsBySquares(d1: real, d2: real, variance: real, t: real)
    requires d1 * d1 <= d2 * d2
    ensures Exceeds(ZScore(d1, variance), t) ==> Exceeds(ZScore(d2, variance), t)
  {
    var bound := t * t * variance;
    if d1 * d1 > bound {
      assert d2 * d2 > bound;
    }
  }

  /** A Medium or worse severity means the score is above 3, hence above the default threshold 2.8. */
  lemma SevereImpliesFlagged(z: ZScore)
    requires z.variance >= 0.0
    requires Rank(ClassifySeverity(Some(z))) >= 1
    ensures Exceeds(z, Z_THRESHOLD)
  {
    if Exceeds(z, 5.0) {
      ExceedsMonotone(z, Z_THRESHOLD, 5.0);
    } else if Exceeds(z, 4.0) {
      ExceedsMonotone(z, Z_THRESHOLD, 4.0);
    } else {
      ExceedsMonotone(z, Z_THRESHOLD, 3.0);
    }
  }

  // ---------------------------------------------------------------------------
  // The two tests of `_check`
  // ---------------------------------------------------------------------------

  /** The IQR fence: outside `q3 + k * iqr` above or `q1 - k * iqr` below. */
  predicate OutsideFence(q1: real, q3: real, value: real, k: real)
  {
    var iqr := q3 - q1;
    value > q3 + k * iqr || value < q1 - k * iqr
  }

  datatype Assessment = Assessment(
    mean: real,
    variance: real,
    z: Option<ZScore>,
    zFlag: bool,
    iqrFlag: bool)

  /**
   * The two tests on the statistics of a snapshot of `n` values: the z-score
   * test when the spread is not negligible, the IQR test from twenty values on.
   */
  function Judge(cfg: Config, n: nat, mean: real, variance: real, q1: real, q3: real, value: real): (r: Assessment)
    ensures r.mean == mean && r.variance == variance
    ensures r.z.Some? <==> variance > VARIANCE_EPSILON
    ensures r.z.Some? ==> r.z.value.deviation == value - mean
    ensures r.zFlag <==> r.z.Some? && Exceeds(r.z.value, cfg.zThreshold)
    ensures r.iqrFlag <==> n >= IQR_MIN_COUNT && OutsideFence(q1, q3, value, cfg.iqrMultiplier)
  {
    var z := if variance > VARIANCE_EPSILON then Some(ZScore(value - mean, variance)) else None;
    var zFlag := z.Some? && Exceeds(z.value, cfg.zThreshold);
    var iqrFlag := n >= IQR_MIN_COUNT && OutsideFence(q1, q3, value, cfg.iqrMultiplier);
    Assessment(mean, variance, z, zFlag, iqrFlag)
  }

  /**
   * The statistics part of `_check`: nothing below `minWindow` earlier values;
   * otherwise the tests of `Judge` on the snapshot's mean, spread and quartiles.
   */
  function Assess(cfg: Config, snapshot: seq<real>, value: real): (r: Option<Assessment>)
    ensures r.None? <==> |snapshot| < cfg.minWindow
    ensures r.Some? ==> r.value.variance >= 0.0
    ensures r.Some? ==> r.value == Judge(cfg, |snapshot|, MeanVar(snapshot).0, MeanVar(snapshot).1,
                                         Percentiles(snapshot).0, Percentiles(snapshot).1, value)
  {
    if |snapshot| < cfg.minWindow then None
    else
      var (mu, v) := MeanVar(snapshot);
      var (q1, q3) := Percentiles(snapshot);
      Some(Judge(cfg, |snapshot|, mu, v, q1, q3, value))
  }

  predicate IsAnomalous(a: Assessment) { a.zFlag || a.iqrFlag }

  /**
   * A reading at the mean that also lies between the quartiles is never
   * flagged, when the threshold and the fence multiplier are non-negative.
   */
  lemma TypicalValueNotFlagged(cfg: Config, n: nat, mean: real, variance: real, q1: real, q3: real)
    requires cfg.zThreshold >= 0.0 && cfg.iqrMultiplier >= 0.0 && variance >= 0.0
    requires q1 <= mean <= q3
    ensures !IsAnomalous(Judge(cfg, n, mean, variance, q1, q3, mean))
  {
    MulNonneg(cfg.iqrMultiplier, q3 - q1);
    MulNonneg(cfg.zThreshold * cfg.zThreshold, variance);
    assert (mean - mean) * (mean - mean) == 0.0;
  }

  /** With no spread and a fence of width zero, a reading is anomalous exactly when it differs. */
  lemma FlatStatsFlagAnyChange(cfg: Config, n: nat, c: real, value: real)
    requires n >= IQR_MIN_COUNT
    ensures Judge(cfg, n, c, 0.0, c, c, value).z.None?
    ensures IsAnomalous(Judge(cfg, n, c, 0.0, c, c, value)) <==> value != c
  {
    assert cfg.iqrMultiplier * (c - c) == 0.0;
  }

  /** Every element of a sequence of copies of `c` sorts to a copy of `c`. */
  lemma SortConstant(s: seq<real>, c: real)
    requires forall i :: 0 <= i < |s| ==> s[i] == c
    ensures forall i :: 0 <= i < |Sort(s)| ==> Sort(s)[i] == c
  {
    var r := Sort(s);
    forall i | 0 <= i < |r|
      ensures r[i] == c
    {
      assert r[i] in multiset(r);
      assert r[i] in multiset(s);
      var j :| 0 <= j < |s| && s[j] == r[i];
    }
  }

  lemma MedianConstant(s: seq<real>, c: real)
    requires s != []
    requires forall i :: 0 <= i < |s| ==> s[i] == c
    ensures Median(s) == c
  {
  }

  /** Both quartiles of a window of copies of `c` are `c`. */
  lemma PercentilesConstant(s: seq<real>, c: real)
    requires |s| >= 2
    requires forall i :: 0 <= i < |s| ==> s[i] == c
    ensures Percentiles(s) == (c, c)
  {
    SortConstant(s, c);
    var t := Sort(s);
    var lower, upper := t[..|s| / 2], t[(|s| + 1) / 2..];
    assert forall i :: 0 <= i < |lower| ==> lower[i] == t[i];
    assert forall i :: 0 <= i < |upper| ==> upper[i] == t[(|s| + 1) / 2 + i];
    MedianConstant(lower, c);
    MedianConstant(upper, c);
    assert Percentiles(s) == (Median(lower), Median(upper));
  }

  /**
   * Against a window of at least twenty copies of `c`, the spread is zero so
   * the z-score test never runs, the fence collapses onto `c`, and a reading
   * is anomalous exactly when it differs from `c`.
   */
  lemma ConstantWindowFlagsAnyChange(cfg: Config, snapshot: seq<real>, c: real, value: real)
    requires |snapshot| >= cfg.minWindow && |snapshot| >= IQR_MIN_COUNT
    requires forall i :: 0 <= i < |snapshot| ==> snapshot[i] == c
    ensures Assess(cfg, snapshot, value).value.z.None?
    ensures IsAnomalous(Assess(cfg, snapshot, value).value) <==> value != c
  {
    ConstantWindowHasNoSpread(snapshot, c);
    PercentilesConstant(snapshot, c);
    FlatStatsFlagAnyChange(cfg, |snapshot|, c, value);
    assert Assess(cfg, snapshot, value) == Some(Judge(cfg, |snapshot|, c, 0.0, c, c, value));
  }

  // ---------------------------------------------------------------------------
  // Events
  // ---------------------------------------------------------------------------

  /** The detection methods listed in the event message. */
  datatype DetectionMethod = ZScoreMethod(z: ZScore) | IqrFence

  datatype AnomalyEvent = AnomalyEvent(
    sensorId: string,
    field: string,
    value: real,
    z: Option<ZScore>,
    iqrFlag: bool,
    mean: real,
    variance: real,
    severity: Severity,
    timestamp: real,
    methods: seq<DetectionMethod>)

  /** The event keeps the z-score only when it is present and non-zero (`z if z else None`). */
  function StoredZ(z: Option<ZScore>): (r: Option<ZScore>)
    ensures r.Some? <==> z.Some? && z.value.deviation != 0.0
    ensures r.Some? ==> r == z
  {
    if z.Some? && z.value.deviation != 0.0 then z else None
  }

  /**
   * `_build_message`'s list of methods. The z-score entry is compared with
   * the module constant 2.8, not with the detector's own threshold.
   */
  function MessageMethods(z: Option<ZScore>, iqrFlag: bool): seq<DetectionMethod>
  {
    (if StoredZ(z).Some? && Exceeds(z.value, Z_THRESHOLD) then [ZScoreMethod(z.value)] else [])
    + (if iqrFlag then [IqrFence] else [])
  }

  /**
   * `_check` after the window update, given the snapshot and the time of the
   * last alert for this (sensor, field) (0.0 when there was none).
   */
  function Decide(cfg: Config, sensorId: string, field: string, snapshot: seq<real>,
                  value: real, lastAlert: real, now: real): (r: Option<AnomalyEvent>)
    ensures r.Some? ==> r.value.sensorId == sensorId && r.value.field == field
                        && r.value.value == value && r.value.timestamp == now
  {
    match Assess(cfg, snapshot, value)
    case None => None
    case Some(a) =>
      if !IsAnomalous(a) then None
      else if now - lastAlert < cfg.cooldown then None
      else
        Some(AnomalyEvent(sensorId, field, value, StoredZ(a.z), a.iqrFlag, a.mean,
                          a.variance, ClassifySeverity(a.z), now, MessageMethods(a.z, a.iqrFlag)))
  }

  /**
   * An emitted event records the assessment it was raised on: the window's
   * mean and variance, the IQR flag, the z-score as stored (none when zero)
   * and the severity `_classify_severity` gives that z-score.
   */
  lemma DecideEvent(cfg: Config, sensorId: string, field: string, snapshot: seq<real>,
                    value: real, lastAlert: real, now: real)
    requires Decide(cfg, sensorId, field, snapshot, value, lastAlert, now).Some?
    ensures Assess(cfg, snapshot, value).Some?
    ensures var e := Decide(cfg, sensorId, field, snapshot, value, lastAlert, now).value;
            var a := Assess(cfg, snapshot, value).value;
            && e.severity == ClassifySeverity(a.z) && e.z == StoredZ(a.z)
            && e.iqrFlag == a.iqrFlag && e.mean == a.mean && e.variance == a.variance
  {
  }

  /**
   * An event is raised exactly when the snapshot is long enough, one of the
   * two tests fires, and the cooldown since the last alert has run out.
   */
  lemma DecideIff(cfg: Config, sensorId: string, field: string, snapshot: seq<real>,
                  value: real, lastAlert: real, now: real)
    ensures Decide(cfg, sensorId, field, snapshot, value, lastAlert, now).Some?
            <==> |snapshot| >= cfg.minWindow
                 && IsAnomalous(Assess(cfg, snapshot, value).value)
                 && now - lastAlert >= cfg.cooldown
  {
  }

  /**
   * With a threshold of at least 2.8 (the default) the message always names
   * at least one detection method, and its z-score entry is the one that fired.
   */
  lemma EventNamesItsMethod(cfg: Config, sensorId: string, field: string, snapshot: seq<real>,
                            value: real, lastAlert: real, now: real)
    requires cfg.zThreshold >= Z_THRESHOLD
    requires Decide(cfg, sensorId, field, snapshot, value, lastAlert, now).Some?
    ensures |Decide(cfg, sensorId, field, snapshot, value, lastAlert, now).value.methods| >= 1
  {
    var a := Assess(cfg, snapshot, value).value;
    if !a.iqrFlag {
      var z := a.z.value;
      ExceedsMonotone(z, Z_THRESHOLD, cfg.zThreshold);
    }
  }

  // ---------------------------------------------------------------------------
  // The detector's state, as values
  // ---------------------------------------------------------------------------

  type Windows = map<string, map<string, seq<real>>>

  /** `windows[sensor][field]`, empty when the detector has not seen it. */
  function WindowOf(w: Windows, sensorId: string, field: string): seq<real>
  {
    if sensorId in w && field in w[sensorId] then w[sensorId][field] else []
  }

  function PutWindow(w: Windows, sensorId: string, field: string, win: seq<real>): (r: Windows)
    ensures forall s, f :: WindowOf(r, s, f) == if s == sensorId && f == field then win else WindowOf(w, s, f)
  {
    w[sensorId := (if sensorId in w then w[sensorId] else map[])[field := win]]
  }

  function LastAlertOf(last: map<(string, string), real>, sensorId: string, field: string): real
  {
    if (sensorId, field) in last then last[(sensorId, field)] else 0.0
  }

  datatype DetectorState = DetectorState(windows: Windows, lastAlert: map<(string, string), real>)

  predicate WindowsBounded(w: Windows, cap: nat)
  {
    forall s :: s in w ==> forall f :: f in w[s] ==> |w[s][f]| <= cap
  }

  /** One `_check`: append to the window, then decide on the snapshot taken before. */
  function CheckStep(cfg: Config, st: DetectorState, sensorId: string, field: string,
                     value: real, now: real): (r: (Option<AnomalyEvent>, DetectorState))
    ensures WindowsBounded(st.windows, cfg.windowSize) ==> WindowsBounded(r.1.windows, cfg.windowSize)
    ensures r.0 == Decide(cfg, sensorId, field, WindowOf(st.windows, sensorId, field), value,
                          LastAlertOf(st.lastAlert, sensorId, field), now)
    ensures r.1.lastAlert == if r.0.Some? then st.lastAlert[(sensorId, field) := now] else st.lastAlert
  {
    var snapshot := WindowOf(st.windows, sensorId, field);
    var windows := PutWindow(st.windows, sensorId, field, PushBounded(snapshot, value, cfg.windowSize));
    PutWindowBounded(st.windows, sensorId, field, PushBounded(snapshot, value, cfg.windowSize), cfg.windowSize);
    var evt := Decide(cfg, sensorId, field, snapshot, value, LastAlertOf(st.lastAlert, sensorId, field), now);
    var last := if evt.Some? then st.lastAlert[(sensorId, field) := now] else st.lastAlert;
    (evt, DetectorState(windows, last))
  }

  /** Storing a window within the cap keeps every window within it. */
  lemma PutWindowBounded(w: Windows, sensorId: string, field: string, win: seq<real>, cap: nat)
    ensures WindowsBounded(w, cap) && |win| <= cap ==> WindowsBounded(PutWindow(w, sensorId, field, win), cap)
  {
  }

  /** Every reading lands in its window, whether or not it raises an event; no other window moves. */
  lemma CheckStepWindows(cfg: Config, st: DetectorState, sensorId: string, field: string,
                         value: real, now: real, s: string, f: string)
    ensures WindowOf(CheckStep(cfg, st, sensorId, field, value, now).1.windows, s, f)
            == if s == sensorId && f == field
               then PushBounded(WindowOf(st.windows, s, f), value, cfg.windowSize)
               else WindowOf(st.windows, s, f)
  {
  }

  /** After an alert for a (sensor, field), no second alert comes for it within the cooldown. */
  lemma NoRepeatWithinCooldown(cfg: Config, st: DetectorState, sensorId: string, field: string,
                               v1: real, t1: real, v2: real, t2: real)
    requires CheckStep(cfg, st, sensorId, field, v1, t1).0.Some?
    requires t2 - t1 < cfg.cooldown
    ensures CheckStep(cfg, CheckStep(cfg, st, sensorId, field, v1, t1).1, sensorId, field, v2, t2).0.None?
  {
  }

  /** The value of the first reading for `field`, when that reading is finite. */
  function FiniteValue(readings: seq<(string, Reading)>, field: string): Option<real>
  {
    if readings == [] then None
    else if readings[0].0 == field then (if readings[0].1.Finite? then Some(readings[0].1.value) else None)
    else FiniteValue(readings[1..], field)
  }

  predicate DistinctFields(readings: seq<(string, Reading)>)
  {
    forall i, j :: 0 <= i < j < |readings| ==> readings[i].0 != readings[j].0
  }

  function PushIf(win: seq<real>, v: Option<real>, cap: nat): seq<real>
  {
    if v.Some? then PushBounded(win, v.value, cap) else win
  }

  /** `ingest`: the readings in order, skipping missing and non-finite ones. */
  function IngestStep(cfg: Config, st: DetectorState, sensorId: string,
                      readings: seq<(string, Reading)>, now: real): (r: (seq<AnomalyEvent>, DetectorState))
    ensures |r.0| <= |readings|
    ensures WindowsBounded(st.windows, cfg.windowSize) ==> WindowsBounded(r.1.windows, cfg.windowSize)
    decreases |readings|
  {
    if readings == [] then ([], st)
    else if !readings[0].1.Finite? then IngestStep(cfg, st, sensorId, readings[1..], now)
    else
      var (evt, st1) := CheckStep(cfg, st, sensorId, readings[0].0, readings[0].1.value, now);
      var (rest, st2) := IngestStep(cfg, st1, sensorId, readings[1..], now);
      ((if evt.Some? then [evt.value] else []) + rest, st2)
  }

  lemma DistinctTail(readings: seq<(string, Reading)>)
    requires readings != [] && DistinctFields(readings)
    ensures DistinctFields(readings[1..])
    ensures forall i :: 0 <= i < |readings[1..]| ==> readings[1..][i].0 != readings[0].0
  {
    forall i, j | 0 <= i < j < |readings[1..]|
      ensures readings[1..][i].0 != readings[1..][j].0
    {
      assert readings[1..][i] == readings[i + 1] && readings[1..][j] == readings[j + 1];
    }
    forall i | 0 <= i < |readings[1..]|
      ensures readings[1..][i].0 != readings[0].0
    {
      assert readings[1..][i] == readings[i + 1];
    }
  }

  lemma {:induction false} FiniteValueAbsent(readings: seq<(string, Reading)>, field: string)
    requires forall i :: 0 <= i < |readings| ==> readings[i].0 != field
    ensures FiniteValue(readings, field).None?
    decreases |readings|
  {
    if readings != [] {
      FiniteValueAbsent(readings[1..], field);
    }
  }

  /** The first reading's step of `IngestStep`, stated apart so proofs can take it one step at a time. */
  lemma IngestStepHead(cfg: Config, st: DetectorState, sensorId: string,
                       readings: seq<(string, Reading)>, now: real)
    requires readings != []
    ensures var r := IngestStep(cfg, st, sensorId, readings, now);
            if readings[0].1.Finite?
            then
              var c := CheckStep(cfg, st, sensorId, readings[0].0, readings[0].1.value, now);
              var rest := IngestStep(cfg, c.1, sensorId, readings[1..], now);
              r == (if c.0.Some? then [c.0.value] + rest.0 else rest.0, rest.1)
            else r == IngestStep(cfg, st, sensorId, readings[1..], now)
  {
    if readings[0].1.Finite? {
      var c := CheckStep(cfg, st, sensorId, readings[0].0, readings[0].1.value, now);
      var rest := IngestStep(cfg, c.1, sensorId, readings[1..], now);
      assert [] + rest.0 == rest.0;
    }
  }

  /** One reading of `ingest`: checked when finite, skipped otherwise. */
  function IngestOne(cfg: Config, st: DetectorState, sensorId: string, rd: (string, Reading), now: real)
    : (Option<AnomalyEvent>, DetectorState)
  {
    if rd.1.Finite? then CheckStep(cfg, st, sensorId, rd.0, rd.1.value, now) else (None, st)
  }

  /** Consuming one reading keeps "events so far + events still to come" equal to the whole result. */
  lemma IngestAdvance(cfg: Config, st: DetectorState, sensorId: string, rs: seq<(string, Reading)>, now: real,
                      found: seq<AnomalyEvent>, total: (seq<AnomalyEvent>, DetectorState))
    requires rs != []
    requires found + IngestStep(cfg, st, sensorId, rs, now).0 == total.0
    requires IngestStep(cfg, st, sensorId, rs, now).1 == total.1
    ensures var c := IngestOne(cfg, st, sensorId, rs[0], now);
            var rest := IngestStep(cfg, c.1, sensorId, rs[1..], now);
            (if c.0.Some? then found + [c.0.value] else found) + rest.0 == total.0 && rest.1 == total.1
  {
    IngestStepHead(cfg, st, sensorId, rs, now);
    var c := IngestOne(cfg, st, sensorId, rs[0], now);
    var rest := IngestStep(cfg, c.1, sensorId, rs[1..], now);
    if c.0.Some? {
      AppendAssoc(found, [c.0.value], rest.0);
    }
  }

  /**
   * After `ingest`, each window of the sensor holds its old contents plus the
   * finite reading for that field, if there was one; other sensors are untouched.
   */
  lemma {:induction false} IngestWindows(cfg: Config, st: DetectorState, sensorId: string,
                                         readings: seq<(string, Reading)>, now: real, s: string, f: string)
    requires DistinctFields(readings)
    ensures WindowOf(IngestStep(cfg, st, sensorId, readings, now).1.windows, s, f)
            == if s == sensorId then PushIf(WindowOf(st.windows, s, f), FiniteValue(readings, f), cfg.windowSize)
               else WindowOf(st.windows, s, f)
    decreases |readings|
  {
    if readings != [] {
      DistinctTail(readings);
      IngestStepHead(cfg, st, sensorId, readings, now);
      var f0 := readings[0].0;
      if f == f0 {
        FiniteValueAbsent(readings[1..], f);
      }
      if readings[0].1.Finite? {
        var st1 := CheckStep(cfg, st, sensorId, f0, readings[0].1.value, now).1;
        IngestWindows(cfg, st1, sensorId, readings[1..], now, s, f);
        CheckStepWindows(cfg, st, sensorId, f0, readings[0].1.value, now, s, f);
      } else {
        IngestWindows(cfg, st, sensorId, readings[1..], now, s, f);
      }
    }
  }

  /**
   * Every event `ingest` returns is about this sensor and about a field whose
   * reading was finite, with that reading's value, stamped with this call's time.
   */
  lemma {:induction false} IngestEventsFromReadings(cfg: Config, st: DetectorState, sensorId: string,
                                                    readings: seq<(string, Reading)>, now: real)
    requires DistinctFields(readings)
    ensures forall e :: e in IngestStep(cfg, st, sensorId, readings, now).0 ==>
              e.sensorId == sensorId && e.timestamp == now && FiniteValue(readings, e.field) == Some(e.value)
    decreases |readings|
  {
    if readings != [] {
      DistinctTail(readings);
      IngestStepHead(cfg, st, sensorId, readings, now);
      var f0 := readings[0].0;
      FiniteValueAbsent(readings[1..], f0);
      if !readings[0].1.Finite? {
        IngestEventsFromReadings(cfg, st, sensorId, readings[1..], now);
      } else {
        var st1 := CheckStep(cfg, st, sensorId, f0, readings[0].1.value, now).1;
        IngestEventsFromReadings(cfg, st1, sensorId, readings[1..], now);
      }
    }
  }

  // ---------------------------------------------------------------------------
  // The history deque
  // ---------------------------------------------------------------------------

  /** `history.appendleft(e)` for each event in turn. */
  function RecordAll(history: seq<AnomalyEvent>, events: seq<AnomalyEvent>): (r: seq<AnomalyEvent>)
    ensures |history| <= HISTORY_CAP ==> |r| <= HISTORY_CAP
  {
    if events == [] then history
    else PrependBounded(events[|events| - 1], RecordAll(history, events[..|events| - 1]), HISTORY_CAP)
  }

  lemma RecordAllSnoc(history: seq<AnomalyEvent>, events: seq<AnomalyEvent>, e: AnomalyEvent)
    ensures RecordAll(history, events + [e]) == PrependBounded(e, RecordAll(history, events), HISTORY_CAP)
  {
    assert (events + [e])[..|events|] == events;
  }

  /** The history is the newest events first, then the older history, cut to 500. */
  lemma {:induction false} RecordAllNewestFirst(history: seq<AnomalyEvent>, events: seq<AnomalyEvent>)
    requires |history| <= HISTORY_CAP
    ensures RecordAll(history, events)
            == (Reverse(events) + history)[..if |events| + |history| <= HISTORY_CAP then |events| + |history| else HISTORY_CAP]
  {
    if events != [] {
      var init := events[..|events| - 1];
      var x := events[|events| - 1];
      RecordAllNewestFirst(history, init);
      var all := Reverse(events) + history;
      assert Reverse(events) == [x] + Reverse(init) by {
        assert |Reverse(events)| == |[x] + Reverse(init)|;
        forall i | 0 <= i < |events|
          ensures Reverse(events)[i] == ([x] + Reverse(init))[i]
        {
          if i > 0 {
            assert ([x] + Reverse(init))[i] == Reverse(init)[i - 1];
          }
        }
      }
      assert all == [x] + (Reverse(init) + history);
      var prev := RecordAll(history, init);
      var r := RecordAll(history, events);
      assert r == ([x] + prev)[..|r|];
      assert [x] + prev == all[..|prev| + 1];
    }
  }

  lemma AppendAssoc<T>(a: seq<T>, b: seq<T>, c: seq<T>)
    ensures (a + b) + c == a + (b + c)
  {
  }

  // ---------------------------------------------------------------------------
  // The detector object
  // ---------------------------------------------------------------------------

  class AnomalyDetector {
    const cfg: Config
    var windows: Windows
    var lastAlert: map<(string, string), real>
    var history: seq<AnomalyEvent>

    ghost predicate Valid()
      reads this
    {
      WindowsBounded(windows, cfg.windowSize) && |history| <= HISTORY_CAP
    }

    function State(): DetectorState
      reads this
    {
      DetectorState(windows, lastAlert)
    }

    constructor(cfg: Config)
      ensures Valid()
      ensures this.cfg == cfg && windows == map[] && lastAlert == map[] && history == []
    {
      this.cfg := cfg;
      windows := map[];
      lastAlert := map[];
      history := [];
    }

    /** `_check`; `now` is the clock reading. */
    method Check(sensorId: string, field: string, value: real, now: real) returns (evt: Option<AnomalyEvent>)
      requires Valid()
      modifies this
      ensures Valid()
      ensures (evt, State()) == CheckStep(cfg, old(State()), sensorId, field, value, now)
      ensures history == old(history)
    {
      ghost var st := State();
      var snapshot := WindowOf(windows, sensorId, field);
      windows := PutWindow(windows, sensorId, field, PushBounded(snapshot, value, cfg.windowSize));
      evt := Decide(cfg, sensorId, field, snapshot, value, LastAlertOf(lastAlert, sensorId, field), now);
      if evt.Some? {
        lastAlert := lastAlert[(sensorId, field) := now];
      }
      assert (evt, State()) == CheckStep(cfg, st, sensorId, field, value, now);
    }

    /** One pass of `ingest`'s loop: a finite reading is checked and its event, if any, recorded. */
    method IngestReading(sensorId: string, rd: (string, Reading), now: real) returns (evt: Option<AnomalyEvent>)
      requires Valid()
      modifies this
      ensures Valid()
      ensures (evt, State()) == IngestOne(cfg, old(State()), sensorId, rd, now)
      ensures history == if evt.Some? then PrependBounded(evt.value, old(history), HISTORY_CAP) else old(history)
    {
      evt := None;
      if rd.1.Finite? {
        evt := Check(sensorId, rd.0, rd.1.value, now);
        if evt.Some? {
          history := PrependBounded(evt.value, history, HISTORY_CAP);
        }
      }
    }

    /** `ingest`: check each finite reading in order and record the events raised, newest first. */
    method Ingest(sensorId: string, readings: seq<(string, Reading)>, now: real)
      returns (found: seq<AnomalyEvent>)
      requires Valid()
      modifies this
      ensures Valid()
      ensures (found, State()) == IngestStep(cfg, old(State()), sensorId, readings, now)
      ensures history == RecordAll(old(history), found)
    {
      found := [];
      var i := 0;
      ghost var total := IngestStep(cfg, State(), sensorId, readings, now);
      assert readings[i..] == readings;
      assert found + total.0 == total.0;
      while i < |readings|
        invariant 0 <= i <= |readings|
        invariant Valid()
        invariant history == RecordAll(old(history), found)
        invariant found + IngestStep(cfg, State(), sensorId, readings[i..], now).0 == total.0
        invariant IngestStep(cfg, State(), sensorId, readings[i..], now).1 == total.1
      {
        ghost var st0 := State();
        IngestAdvance(cfg, st0, sensorId, readings[i..], now, found, total);
        assert readings[i..][0] == readings[i] && readings[i..][1..] == readings[i + 1..];
        var evt := IngestReading(sensorId, readings[i], now);
        if evt.Some? {
          RecordAllSnoc(old(history), found, evt.value);
          found := found + [evt.value];
        }
        i := i + 1;
      }
      assert readings[i..] == [];
      assert found + [] == found;
    }

    /** `get_recent(limit)`: the newest events first, `history[:limit]`. */
    function GetRecent(limit: int): (r: seq<AnomalyEvent>)
      reads this
      ensures |r| == (if limit >= 0 then (if limit <= |history| then limit else |history|)
                      else (if |history| + limit >= 0 then |history| + limit else 0))
      ensures r == history[..|r|]
    {
      PyPrefix(history, limit)
    }

    /** `get_window_stats`: the length of every window the detector holds. */
    function GetWindowStats(): (r: map<string, map<string, nat>>)
      reads this
      ensures r.Keys == windows.Keys
      ensures forall s :: s in r ==> r[s].Keys == windows[s].Keys
      ensures forall s, f :: s in r && f in r[s] ==> r[s][f] == |windows[s][f]|
      ensures Valid() ==> forall s, f :: s in r && f in r[s] ==> r[s][f] <= cfg.windowSize
    {
      map s | s in windows :: map f | f in windows[s] :: |windows[s][f]|
    }
  }

  /** The last event recorded is on top of the history. */
  lemma LatestEventFirst(history: seq<AnomalyEvent>, events: seq<AnomalyEvent>)
    requires events != []
    ensures RecordAll(history, events)[0] == events[|events| - 1]
  {
  }
}
