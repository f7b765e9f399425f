/**
 * The health monitor of scripts/monitor.js: how one probe of the site's `/ping` is classified,
 * the failure counter and alert flag that `performHealthCheck` keeps across probes, and the
 * truncation of the monitor's log by `cleanupLogs`.
 *
 * The HTTPS request, the timers and the clock are inputs: a probe's outcome and the time of
 * the check are passed in.
 */
module Monitor {
  import opened Wrappers
  import opened JsString
  import opened JsArray

  const ALERT_THRESHOLD: nat := 3
  const KEPT_LOG_LINES: nat := 1000

  /** The outcome of `checkHealth()`'s request: a response with its status code, a request
      error, a timeout, or an exception thrown while checking (the `catch` of
      `performHealthCheck`). */
  datatype Probe = Response(statusCode: int) | RequestError(message: string) | Timeout | Thrown(message: string)

  /** `result.success`: the server answered 200, or 503 (asleep but present). */
  predicate Succeeded(p: Probe) {
    p.Response? && (p.statusCode == 200 || p.statusCode == 503)
  }

  /** The monitor's `failureCount` and `isHealthy`. */
  datatype Health = Health(failureCount: nat, isHealthy: bool)

  const Initial := Health(0, true)

  /** The monitor is marked unhealthy exactly when the failures in a row have reached
      `alertThreshold`. */
  predicate Consistent(h: Health) {
    h.isHealthy <==> h.failureCount < ALERT_THRESHOLD
  }

  /** One `performHealthCheck()` on its state: the new state, and whether an alert is sent.
      A success after failures resets the counter and marks the service healthy; every failure
      adds exactly one; the alert goes out when the counter reaches the threshold while the
      service is still marked healthy, which then stops being so. */
  function Check(h: Health, p: Probe): (r: (Health, bool))
    ensures Succeeded(p) ==> !r.1
    ensures Succeeded(p) && h.failureCount > 0 ==> r.0 == Health(0, true)
    ensures Succeeded(p) && h.failureCount == 0 ==> r.0 == h
    ensures !Succeeded(p) ==> r.0.failureCount == h.failureCount + 1
    ensures !Succeeded(p) ==> (r.1 <==> h.failureCount + 1 >= ALERT_THRESHOLD && h.isHealthy)
    ensures !Succeeded(p) ==> r.0.isHealthy == (h.isHealthy && !r.1)
  {
    if Succeeded(p) then
      if h.failureCount > 0 then (Health(0, true), false) else (h, false)
    else
      var n := h.failureCount + 1;
      if n >= ALERT_THRESHOLD && h.isHealthy then (Health(n, false), true) else (Health(n, h.isHealthy), false)
  }

  /** Every check keeps the monitor valid, and a valid monitor is healthy after a success. */
  lemma CheckValid(h: Health, p: Probe)
    requires Consistent(h)
    ensures Consistent(Check(h, p).0)
    ensures Succeeded(p) ==> Check(h, p).0 == Initial
  {
  }

  /** A sequence of checks: the final state and the number of alerts sent. */
  function Run(h: Health, ps: seq<Probe>): (Health, nat)
    decreases |ps|
  {
    if ps == [] then (h, 0)
    else
      var (h1, alerted) := Check(h, ps[0]);
      var (h2, n) := Run(h1, ps[1..]);
      (h2, n + if alerted then 1 else 0)
  }

  /** A run of failures alerts at most once: exactly when the service was marked healthy and
      the counter reaches the threshold during the run; the service is then marked unhealthy
      until a success. */
  lemma {:induction false} FailureRunAlertsOnce(h: Health, ps: seq<Probe>)
    requires Consistent(h)
    requires forall i :: 0 <= i < |ps| ==> !Succeeded(ps[i])
    ensures Run(h, ps).1 == if h.isHealthy && h.failureCount + |ps| >= ALERT_THRESHOLD then 1 else 0
    ensures Run(h, ps).0 ==
      Health(h.failureCount + |ps|, h.isHealthy && h.failureCount + |ps| < ALERT_THRESHOLD)
    decreases |ps|
  {
    if ps != [] {
      var (h1, alerted) := Check(h, ps[0]);
      assert !Succeeded(ps[0]);
      CheckValid(h, ps[0]);
      var rest := ps[1..];
      assert forall i :: 0 <= i < |rest| ==> !Succeeded(rest[i]) by {
        forall i | 0 <= i < |rest| ensures !Succeeded(rest[i]) {
          assert rest[i] == ps[i + 1];
        }
      }
      FailureRunAlertsOnce(h1, rest);
      assert Run(h, ps) == (Run(h1, rest).0, Run(h1, rest).1 + if alerted then 1 else 0);
    }
  }

  /** The state of scripts/monitor.js: the two counters, the time of the last check (`null`
      before the first) and the alerts sent, each with the probe that triggered it. */
  class HealthMonitor {
    var failureCount: nat
    var isHealthy: bool
    var lastCheckTime: Option<int>
    var alerts: seq<Probe>

    predicate Valid()
      reads this
    {
      Consistent(Health(failureCount, isHealthy))
    }

    constructor ()
      ensures failureCount == 0 && isHealthy && lastCheckTime == None && alerts == []
      ensures Valid()
    {
      failureCount := 0;
      isHealthy := true;
      lastCheckTime := None;
      alerts := [];
    }

    /** `performHealthCheck()` at time `now` with the probe outcome `p`. */
    method PerformHealthCheck(p: Probe, now: int)
      requires Valid()
      modifies this
      ensures Valid()
      ensures Health(failureCount, isHealthy) == Check(Health(old(failureCount), old(isHealthy)), p).0
      ensures alerts == old(alerts) + if Check(Health(old(failureCount), old(isHealthy)), p).1 then [p] else []
      ensures lastCheckTime == Some(now)
    {
      lastCheckTime := Some(now);
      if Succeeded(p) {
        if failureCount > 0 {
          failureCount := 0;
          isHealthy := true;
        }
      } else {
        failureCount := failureCount + 1;
        if failureCount >= ALERT_THRESHOLD && isHealthy {
          isHealthy := false;
          alerts := alerts + [p];
        }
      }
    }
  }

  /** `cleanupLogs()` on the log's content: `None` when it has at most 1000 lines (the file is
      left alone), otherwise the last 1000 lines joined again. */
  function CleanupLogs(content: string): (r: Option<string>)
    ensures r.None? <==> |Split(content, '\n')| <= KEPT_LOG_LINES
  {
    var lines := Split(content, '\n');
    if |lines| > KEPT_LOG_LINES then Some(Join(Slice(lines, -(KEPT_LOG_LINES as int), |lines|), '\n')) else None
  }

  /** The rewritten log consists of exactly the last 1000 lines of the old one, in order. */
  lemma CleanupKeepsLastLines(content: string)
    requires |Split(content, '\n')| > KEPT_LOG_LINES
    ensures var lines := Split(content, '\n');
      Split(CleanupLogs(content).value, '\n') == lines[|lines| - KEPT_LOG_LINES..]
  {
    var lines := Split(content, '\n');
    var kept := lines[|lines| - KEPT_LOG_LINES..];
    assert Slice(lines, -(KEPT_LOG_LINES as int), |lines|) == kept;
    TailPieces(lines, |lines| - KEPT_LOG_LINES, '\n');
    SplitJoin(kept, '\n');
  }

  /** The pieces of a split after any point still lack the separator. */
  lemma TailPieces(lines: seq<string>, n: nat, c: char)
    requires n < |lines| && forall k :: 0 <= k < |lines| ==> c !in lines[k]
    ensures |lines[n..]| >= 1 && forall k :: 0 <= k < |lines[n..]| ==> c !in lines[n..][k]
  {
    forall k | 0 <= k < |lines[n..]|
      ensures c !in lines[n..][k]
    {
      assert lines[n..][k] == lines[n + k];
    }
  }

  /** Cleaning a freshly cleaned log changes nothing. */
  lemma CleanupIdempotent(content: string)
    requires CleanupLogs(content).Some?
    ensures CleanupLogs(CleanupLogs(content).value).None?
  {
    CleanupKeepsLastLines(content);
  }
}
