/**
 * The monitoring middleware of middleware/performance.js: the log entries written when a
 * response finishes, the health-check short cut, and the request counters of
 * `requestStatsMiddleware`. Durations are milliseconds; the clock and `process.memoryUsage()`
 * are inputs.
 */
module Performance {
  import opened Logger
  import opened Wrappers
  import opened JsString

  /** The level of `performanceMiddleware`'s entry for a response time: warn above five
      seconds, info above one second, debug otherwise. */
  function ResponseLevel(responseTime: int): (l: Level)
    ensures l == Warn <==> responseTime > 5000
    ensures l == Info <==> 1000 < responseTime <= 5000
    ensures l == Debug <==> responseTime <= 1000
  {
    if responseTime > 5000 then Warn else if responseTime > 1000 then Info else Debug
  }

  /** The levels of the entries written when a response finishes, in order: the monitoring
      entry, then a 'response too long' warning above three seconds. */
  function FinishEntries(responseTime: int): (ls: seq<Level>)
    ensures |ls| == 1 || |ls| == 2
    ensures ls[0] == ResponseLevel(responseTime)
    ensures |ls| == 2 <==> responseTime > 3000
    ensures |ls| == 2 ==> ls[1] == Warn
  {
    [ResponseLevel(responseTime)] + (if responseTime > 3000 then [Warn] else [])
  }

  /** A finished response is warned about exactly when it took more than three seconds, and
      gets two warnings exactly when it took more than five. */
  lemma WarningsByResponseTime(responseTime: int)
    ensures (Warn in FinishEntries(responseTime)) <==> responseTime > 3000
    ensures (FinishEntries(responseTime) == [Warn, Warn]) <==> responseTime > 5000
  {
    var ls := FinishEntries(responseTime);
    if responseTime <= 3000 {
      assert ls == [ResponseLevel(responseTime)];
    }
  }

  /** The paths `healthCheckMiddleware` answers itself. */
  predicate IsHealthPath(path: string) {
    path == "/health" || path == "/__health"
  }

  /** What the process reports about itself: the ISO time, `process.uptime()`, the
      `npm_package_version` environment variable ("" when unset), `process.version`,
      `process.platform` and `process.arch`. */
  datatype ProcessInfo = ProcessInfo(
    timestamp: string, uptime: int, packageVersion: string, nodeVersion: string,
    platform: string, arch: string)

  /** The JSON body of the health report (`memory` is left out). */
  datatype HealthReport = HealthReport(
    status: string, timestamp: string, uptime: int, version: string, nodeVersion: string,
    platform: string, arch: string)

  /** `healthCheckMiddleware`: the report it sends for the two health paths, `None` when it
      passes the request on with `next()`. The report always says "healthy" and always names
      a version: the package's own, or "1.0.0" when the environment gives none. */
  function HealthCheck(path: string, info: ProcessInfo): (r: Option<HealthReport>)
    ensures r.Some? <==> path == "/health" || path == "/__health"
    ensures r.Some? ==> r.value.status == "healthy" && r.value.version != ""
    ensures r.Some? && info.packageVersion != "" ==> r.value.version == info.packageVersion
    ensures r.Some? && info.packageVersion == "" ==> r.value.version == "1.0.0"
    ensures r.Some? ==> r.value.timestamp == info.timestamp && r.value.uptime == info.uptime
  {
    if IsHealthPath(path) then
      Some(HealthReport("healthy", info.timestamp, info.uptime, Or(info.packageVersion, "1.0.0"),
                        info.nodeVersion, info.platform, info.arch))
    else None
  }

  /** `stats` of `requestStatsMiddleware`: the requests seen, the finished responses with an
      error status, and the finished responses slower than one second. `finished` counts the
      responses that have finished so far. */
  class RequestStats {
    var total: nat
    var errors: nat
    var slowRequests: nat
    const startTime: int
    ghost var finished: nat

    /** Every counted error or slow response is a response that finished, and every finished
        response belongs to a counted request. */
    ghost predicate Valid()
      reads this
    {
      errors <= finished && slowRequests <= finished && finished <= total
    }

    constructor (startTime: int)
      ensures Valid() && total == 0 && errors == 0 && slowRequests == 0 && this.startTime == startTime
    {
      total, errors, slowRequests := 0, 0, 0;
      this.startTime := startTime;
      finished := 0;
    }

    /** A request arrives: it is counted, and a summary is logged exactly when the new total is
        a multiple of 100. */
    method OnRequest() returns (summary: bool)
      requires Valid()
      modifies this
      ensures Valid()
      ensures total == old(total) + 1 && errors == old(errors) && slowRequests == old(slowRequests)
      ensures summary <==> total % 100 == 0
    {
      total := total + 1;
      summary := total % 100 == 0;
    }

    /** A counted request's response finishes with `statusCode` after `duration`. */
    method OnFinish(statusCode: int, duration: int)
      requires Valid() && finished < total
      modifies this
      ensures Valid() && finished == old(finished) + 1
      ensures total == old(total)
      ensures errors == old(errors) + (if statusCode >= 400 then 1 else 0)
      ensures slowRequests == old(slowRequests) + (if duration > 1000 then 1 else 0)
    {
      if statusCode >= 400 {
        errors := errors + 1;
      }
      if duration > 1000 {
        slowRequests := slowRequests + 1;
      }
      finished := finished + 1;
    }
  }

  /** The number of summaries logged over the first `n` requests. */
  function Summaries(n: nat): nat {
    if n == 0 then 0 else Summaries(n - 1) + (if n % 100 == 0 then 1 else 0)
  }

  /** One summary per hundred requests. */
  lemma {:induction false} SummariesEveryHundred(n: nat)
    ensures Summaries(n) == n / 100
  {
    if n > 0 {
      SummariesEveryHundred(n - 1);
      if n % 100 == 0 {
        assert n / 100 == (n - 1) / 100 + 1;
      } else {
        assert n / 100 == (n - 1) / 100;
      }
    }
  }
}
