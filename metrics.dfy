/**
 * The rolling request counter the middleware updates on every request: the
 * total, the count per route and the error count, with the two facts the
 * counter keeps (errors never exceed the total, and the per-route counts
 * add up to it), and the requests-per-minute figure of the metrics report.
 * The start time is a parameter of the constructor.
 */
module Metrics {

  /** A key of a non-empty map. */
  ghost function Pick(m: map<string, nat>): (k: string)
    requires m != map[]
    ensures k in m
  {
    var k :| k in m; k
  }

  /** The sum of the counts of a map. */
  ghost function MapSum(m: map<string, nat>): nat
    decreases |m|
  {
    if m == map[] then 0
    else
      var k := Pick(m);
      assert |m - {k}| < |m| by { MapRemoveShrinks(m, k); }
      m[k] + MapSum(m - {k})
  }

  lemma MapRemoveShrinks(m: map<string, nat>, k: string)
    requires k in m
    ensures |m - {k}| == |m| - 1
  {
    assert (m - {k}).Keys == m.Keys - {k};
    assert |m.Keys| == |m|;
    assert |(m - {k}).Keys| == |m - {k}|;
  }

  /** Any key can be taken out of the sum first. */
  lemma {:induction false} MapSumRemove(m: map<string, nat>, k: string)
    requires k in m
    ensures MapSum(m) == m[k] + MapSum(m - {k})
    decreases |m|
  {
    var j := Pick(m);
    if j != k {
      MapRemoveShrinks(m, j);
      MapRemoveShrinks(m, k);
      MapSumRemove(m - {j}, k);
      MapSumRemove(m - {k}, j);
      assert m - {j} - {k} == m - {k} - {j};
    }
  }

  /** Adding one to a key's count, or adding the key with a count of one, adds one to the sum. */
  lemma MapSumIncrement(m: map<string, nat>, k: string)
    ensures MapSum(m[k := (if k in m then m[k] else 0) + 1]) == MapSum(m) + 1
  {
    var m' := m[k := (if k in m then m[k] else 0) + 1];
    MapSumRemove(m', k);
    assert m' - {k} == m - {k};
    if k in m {
      MapSumRemove(m, k);
    } else {
      assert m - {k} == m;
    }
  }

  /** No route's count exceeds the sum. */
  lemma CountBelowSum(m: map<string, nat>, k: string)
    requires k in m
    ensures m[k] <= MapSum(m)
  {
    MapSumRemove(m, k);
  }

  class RequestStats {
    var total: nat
    var perRoute: map<string, nat>
    var errors: nat
    var lastReset: real

    ghost predicate Valid()
      reads this
    {
      errors <= total && MapSum(perRoute) == total
    }

    /** Zeroed counters, as at start-up. */
    constructor(now: real)
      ensures Valid()
      ensures total == 0 && errors == 0 && perRoute == map[] && lastReset == now
    {
      total := 0;
      perRoute := map[];
      errors := 0;
      lastReset := now;
    }

    /** `increment_requests`: one more request in total and on its route, and one more error if it failed. */
    method IncrementRequests(route: string, isError: bool)
      requires Valid()
      modifies this
      ensures Valid()
      ensures total == old(total) + 1
      ensures perRoute == old(perRoute)[route := (if route in old(perRoute) then old(perRoute)[route] else 0) + 1]
      ensures errors == old(errors) + (if isError then 1 else 0)
      ensures lastReset == old(lastReset)
    {
      MapSumIncrement(perRoute, route);
      total := total + 1;
      perRoute := perRoute[route := (if route in perRoute then perRoute[route] else 0) + 1];
      if isError {
        errors := errors + 1;
      }
    }

    /** The count of a route, 0 for a route never seen; never more than the total. */
    function RouteCount(route: string): (n: nat)
      reads this
      requires Valid()
      ensures n <= total
      ensures route !in perRoute ==> n == 0
      ensures route in perRoute ==> n == perRoute[route]
    {
      if route in perRoute then
        CountBelowSum(perRoute, route);
        perRoute[route]
      else 0
    }
  }

  /**
   * `requests_per_min`: the total over the uptime in minutes, where zero
   * minutes counts as one (the figure is rounded to two decimals in the
   * report, which is not modelled).
   */
  function RequestsPerMinute(total: nat, uptimeSeconds: real): (r: real)
    ensures uptimeSeconds == 0.0 ==> r == total as real
    ensures uptimeSeconds != 0.0 ==> r * (uptimeSeconds / 60.0) == total as real
    ensures uptimeSeconds > 0.0 ==> r >= 0.0
  {
    var minutes := uptimeSeconds / 60.0;
    var mins := if minutes != 0.0 then minutes else 1.0;
    total as real / mins
  }
}
