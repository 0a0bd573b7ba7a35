/**
 * The status rules of the health endpoints: the disk and memory components
 * with their thresholds, the database and anomaly-engine components, the
 * readiness rule and the overall status of the deep check. The probes
 * themselves (the database ping, the disk and process statistics) are
 * parameters.
 */
module Health {

  datatype Status = Ok | Degraded | Failed

  datatype Component = Component(name: string, status: Status)

  datatype Overall = Healthy | DegradedOverall | Critical

  function OverallName(o: Overall): string
  {
    match o
    case Healthy => "healthy"
    case DegradedOverall => "degraded"
    case Critical => "critical"
  }

  /** The disk is degraded from 85 % use upwards; it never fails. */
  function CheckDisk(percentUsed: real): (c: Component)
    ensures c.name == "disk"
    ensures c.status == Ok <==> percentUsed < 85.0
    ensures c.status != Failed
  {
    Component("disk", if percentUsed < 85.0 then Ok else Degraded)
  }

  /** The process memory is degraded from a resident size of 1500 MiB upwards; it never fails. */
  function CheckMemory(rssBytes: nat): (c: Component)
    ensures c.name == "memory"
    ensures c.status == Ok <==> rssBytes < 1500 * 1024 * 1024
    ensures c.status != Failed
  {
    var mb := rssBytes as real / 1024.0 / 1024.0;
    Component("memory", if mb < 1500.0 then Ok else Degraded)
  }

  /** The database is ok when the ping succeeds and failed otherwise; it is never merely degraded. */
  function CheckDb(pingSucceeded: bool): (c: Component)
    ensures c.name == "database"
    ensures c.status == Ok <==> pingSucceeded
    ensures c.status != Degraded
  {
    Component("database", if pingSucceeded then Ok else Failed)
  }

  /** The anomaly engine is ok when its statistics can be read and failed otherwise. */
  function CheckAnomalyEngine(responsive: bool): (c: Component)
    ensures c.name == "anomaly_detector"
    ensures c.status == Ok <==> responsive
    ensures c.status != Degraded
  {
    Component("anomaly_detector", if responsive then Ok else Failed)
  }

  /** The components with the given status, in order. */
  function WithStatus(cs: seq<Component>, s: Status): (r: seq<Component>)
    ensures |r| <= |cs|
    ensures forall c :: c in r <==> c in cs && c.status == s
  {
    if cs == [] then []
    else (if cs[0].status == s then [cs[0]] else []) + WithStatus(cs[1..], s)
  }

  /** Healthy with no failed and no degraded component, degraded with some degraded and none failed, otherwise critical. */
  function OverallOf(cs: seq<Component>): (o: Overall)
    ensures o == Critical <==> exists i :: 0 <= i < |cs| && cs[i].status == Failed
    ensures o == Healthy <==> forall i :: 0 <= i < |cs| ==> cs[i].status == Ok
    ensures o == DegradedOverall <==>
              (exists i :: 0 <= i < |cs| && cs[i].status == Degraded)
              && (forall i :: 0 <= i < |cs| ==> cs[i].status != Failed)
  {
    var failed := WithStatus(cs, Failed);
    var degraded := WithStatus(cs, Degraded);
    if failed == [] && degraded == [] then
      assert forall i :: 0 <= i < |cs| ==> cs[i] in cs;
      Healthy
    else if failed == [] then
      assert degraded[0] in cs;
      assert forall i :: 0 <= i < |cs| ==> cs[i] in cs;
      DegradedOverall
    else
      assert failed[0] in cs;
      Critical
  }

  /** The readiness probe: the database answered and the disk has not failed. */
  function Ready(db: Component, disk: Component): (b: bool)
    ensures b <==> db.status == Ok && disk.status != Failed
  {
    db.status == Ok && disk.status != Failed
  }

  /** The HTTP status of the readiness probe: 200 when ready, 503 otherwise. */
  function ReadyCode(db: Component, disk: Component): (code: nat)
    ensures code == 200 <==> Ready(db, disk)
    ensures code == 200 || code == 503
  {
    if Ready(db, disk) then 200 else 503
  }

  /** Since the disk check never fails, readiness depends on the database alone. */
  lemma ReadyIffDatabaseAnswers(pingSucceeded: bool, percentUsed: real)
    ensures Ready(CheckDb(pingSucceeded), CheckDisk(percentUsed)) <==> pingSucceeded
  {
  }

  /** The components of the deep check, in the order it lists them. */
  function DeepComponents(pingSucceeded: bool, percentUsed: real, rssBytes: nat, responsive: bool): (cs: seq<Component>)
    ensures |cs| == 4
  {
    [CheckDb(pingSucceeded), CheckDisk(percentUsed), CheckMemory(rssBytes), CheckAnomalyEngine(responsive)]
  }

  /**
   * The deep check is critical exactly when the database or the anomaly
   * engine fails, degraded when only the disk or memory thresholds are
   * crossed, and healthy otherwise.
   */
  lemma DeepOverall(pingSucceeded: bool, percentUsed: real, rssBytes: nat, responsive: bool)
    ensures var o := OverallOf(DeepComponents(pingSucceeded, percentUsed, rssBytes, responsive));
            && (o == Critical <==> !pingSucceeded || !responsive)
            && (o == Healthy <==> pingSucceeded && responsive && percentUsed < 85.0 && rssBytes < 1500 * 1024 * 1024)
  {
    var cs := DeepComponents(pingSucceeded, percentUsed, rssBytes, responsive);
    if !pingSucceeded {
      assert cs[0].status == Failed;
    }
    if !responsive {
      assert cs[3].status == Failed;
    }
    if percentUsed >= 85.0 {
      assert cs[1].status != Ok;
    }
    if rssBytes >= 1500 * 1024 * 1024 {
      assert cs[2].status != Ok;
    }
  }

  /** Whenever the deep check is not critical, the readiness probe passes. */
  lemma NotCriticalMeansReady(pingSucceeded: bool, percentUsed: real, rssBytes: nat, responsive: bool)
    requires OverallOf(DeepComponents(pingSucceeded, percentUsed, rssBytes, responsive)) != Critical
    ensures Ready(CheckDb(pingSucceeded), CheckDisk(percentUsed))
  {
    DeepOverall(pingSucceeded, percentUsed, rssBytes, responsive);
  }
}
