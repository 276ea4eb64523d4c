/** Metrics and health bookkeeping: a collector that appends metrics to one list per name, a
    registry of health checks, and the bot-level counters built on the collector. Timestamps
    are the integer `now` of each call; metric values are reals. */
module Monitoring {
  import opened Strings

  datatype MetricType = Counter | Gauge | Histogram | Summary

  type Labels = map<string, string>

  datatype Metric = Metric(name: string, kind: MetricType, value: real, labels: Labels, timestamp: int)

  type MetricStore = map<string, seq<Metric>>

  // ---------------------------------------------------------------- the store, as values

  /** The list recorded under `name`; a name never used reads as the empty list. */
  function ListIn(store: MetricStore, name: string): seq<Metric> {
    if name in store then store[name] else []
  }

  /** The store after one metric is appended under `name`. */
  function Added(store: MetricStore, name: string, m: Metric): (r: MetricStore)
    ensures ListIn(r, name) == ListIn(store, name) + [m]
    ensures forall other :: other != name ==> ListIn(r, other) == ListIn(store, other)
  {
    store[name := ListIn(store, name) + [m]]
  }

  /** The value of the last metric under `name`, if any. */
  function Latest(store: MetricStore, name: string): (r: Option<real>)
    ensures r.None? <==> ListIn(store, name) == []
  {
    var ms := ListIn(store, name);
    if ms != [] then Some(ms[|ms| - 1].value) else None
  }

  /** Round trip: the latest value after adding a metric is that metric's value, and adding
      under one name does not change the latest value of another. */
  lemma LatestAfterAdded(store: MetricStore, name: string, other: string, m: Metric)
    ensures Latest(Added(store, name, m), name) == Some(m.value)
    ensures other != name ==> Latest(Added(store, name, m), other) == Latest(store, other)
  {
  }

  /** The store after `clear_metrics`: a present (non-empty) name drops that list only, a
      missing or empty name drops them all. */
  function Cleared(store: MetricStore, name: Option<string>): (r: MetricStore)
    ensures name.Some? && name.value != "" ==>
      (forall other :: ListIn(r, other) == (if other == name.value then [] else ListIn(store, other)))
    ensures !(name.Some? && name.value != "") ==> r == map[]
  {
    if name.Some? && name.value != "" then store - {name.value} else map[]
  }

  // ---------------------------------------------------------------- summary statistics

  function Values(ms: seq<Metric>): (r: seq<real>)
    ensures |r| == |ms| && forall i :: 0 <= i < |ms| ==> r[i] == ms[i].value
  {
    seq(|ms|, i requires 0 <= i < |ms| => ms[i].value)
  }

  function Sum(xs: seq<real>): real {
    if xs == [] then 0.0 else Sum(xs[..|xs| - 1]) + xs[|xs| - 1]
  }

  function MinOf(xs: seq<real>): (r: real)
    requires xs != []
    ensures r in xs && forall i :: 0 <= i < |xs| ==> r <= xs[i]
  {
    if |xs| == 1 then xs[0]
    else
      var m := MinOf(xs[..|xs| - 1]);
      assert forall i :: 0 <= i < |xs| - 1 ==> xs[..|xs| - 1][i] == xs[i];
      if xs[|xs| - 1] < m then xs[|xs| - 1] else m
  }

  function MaxOf(xs: seq<real>): (r: real)
    requires xs != []
    ensures r in xs && forall i :: 0 <= i < |xs| ==> xs[i] <= r
  {
    if |xs| == 1 then xs[0]
    else
      var m := MaxOf(xs[..|xs| - 1]);
      assert forall i :: 0 <= i < |xs| - 1 ==> xs[..|xs| - 1][i] == xs[i];
      if xs[|xs| - 1] > m then xs[|xs| - 1] else m
  }

  /** The sum lies between `|xs|` times any lower bound and `|xs|` times any upper bound. */
  lemma {:induction false} SumBounds(xs: seq<real>, lo: real, hi: real)
    requires forall i :: 0 <= i < |xs| ==> lo <= xs[i] <= hi
    ensures |xs| as real * lo <= Sum(xs) <= |xs| as real * hi
  {
    if xs != [] {
      var init := xs[..|xs| - 1];
      assert forall i :: 0 <= i < |init| ==> init[i] == xs[i];
      SumBounds(init, lo, hi);
      assert |xs| as real * lo == |init| as real * lo + lo;
      assert |xs| as real * hi == |init| as real * hi + hi;
    }
  }

  /** Dividing bounds on a total by a positive count bounds the mean. */
  lemma MeanBetween(total: real, n: real, lo: real, hi: real)
    requires n > 0.0 && n * lo <= total <= n * hi
    ensures lo <= total / n <= hi
  {
  }

  datatype MetricSummary = MetricSummary(count: nat, latest: real, average: real, min: real, max: real)

  /** One entry of `get_metrics_summary`: count, last value, mean, least and greatest value. */
  function Summarize(xs: seq<real>): (s: MetricSummary)
    requires xs != []
    ensures s.count == |xs| && s.latest == xs[|xs| - 1]
    ensures s.min in xs && s.max in xs
    ensures forall i :: 0 <= i < |xs| ==> s.min <= xs[i] <= s.max
    ensures s.min <= s.average <= s.max
    ensures s.average == Sum(xs) / (|xs| as real)
  {
    var lo := MinOf(xs);
    var hi := MaxOf(xs);
    var n := |xs| as real;
    SumBounds(xs, lo, hi);
    MeanBetween(Sum(xs), n, lo, hi);
    MetricSummary(|xs|, xs[|xs| - 1], Sum(xs) / n, lo, hi)
  }

  /** `get_metrics_summary` over a store: one entry per name whose list is non-empty. */
  function SummaryOf(store: MetricStore): (r: map<string, MetricSummary>)
    ensures forall name :: name in r <==> name in store && store[name] != []
    ensures forall name :: name in r ==> r[name] == Summarize(Values(store[name]))
    ensures forall name :: name in r ==>
      (&& r[name].count == |store[name]|
       && r[name].latest == store[name][|store[name]| - 1].value
       && r[name].average == Sum(Values(store[name])) / (|store[name]| as real)
       && (forall i :: 0 <= i < |store[name]| ==> r[name].min <= store[name][i].value <= r[name].max)
       && (exists i :: 0 <= i < |store[name]| && store[name][i].value == r[name].min)
       && (exists i :: 0 <= i < |store[name]| && store[name][i].value == r[name].max))
  {
    map name | name in store && store[name] != [] :: Summarize(Values(store[name]))
  }

  class MetricsCollector {
    var metrics: MetricStore

    constructor()
      ensures metrics == map[]
    {
      metrics := map[];
    }

    /** `add_metric`: one metric is appended under `name`; absent labels become empty. */
    method AddMetric(name: string, kind: MetricType, value: real, now: int, labels: Option<Labels> := None)
      modifies this
      ensures metrics == Added(old(metrics), name,
                               Metric(name, kind, value, if labels.Some? then labels.value else map[], now))
    {
      var ls := if labels.Some? then labels.value else map[];
      var m := Metric(name, kind, value, ls, now);
      if name in metrics {
        metrics := metrics[name := metrics[name] + [m]];
      } else {
        assert [] + [m] == [m];
        metrics := metrics[name := [m]];
      }
    }

    /** `increment_counter`: a counter metric carrying the amount, 1 by default. */
    method IncrementCounter(name: string, now: int, labels: Option<Labels> := None, amount: real := 1.0)
      modifies this
      ensures metrics == Added(old(metrics), name,
                               Metric(name, Counter, amount, if labels.Some? then labels.value else map[], now))
    {
      AddMetric(name, Counter, amount, now, labels);
    }

    /** `set_gauge` */
    method SetGauge(name: string, value: real, now: int, labels: Option<Labels> := None)
      modifies this
      ensures metrics == Added(old(metrics), name,
                               Metric(name, Gauge, value, if labels.Some? then labels.value else map[], now))
    {
      AddMetric(name, Gauge, value, now, labels);
    }

    /** `observe_histogram` */
    method ObserveHistogram(name: string, value: real, now: int, labels: Option<Labels> := None)
      modifies this
      ensures metrics == Added(old(metrics), name,
                               Metric(name, Histogram, value, if labels.Some? then labels.value else map[], now))
    {
      AddMetric(name, Histogram, value, now, labels);
    }

    /** `get_metric`: the list under `name`, or the empty list. */
    method GetMetric(name: string) returns (r: seq<Metric>)
      ensures name !in metrics ==> r == []
      ensures name in metrics ==> r == metrics[name]
    {
      r := if name in metrics then metrics[name] else [];
    }

    /** `get_latest_value` */
    function GetLatestValue(name: string): (r: Option<real>)
      reads this
      ensures r.None? <==> name !in metrics || metrics[name] == []
      ensures r.Some? ==> r.value == metrics[name][|metrics[name]| - 1].value
    {
      Latest(metrics, name)
    }

    /** `get_metrics_summary` */
    function GetMetricsSummary(): map<string, MetricSummary>
      reads this
    {
      SummaryOf(metrics)
    }

    /** `clear_metrics` */
    method ClearMetrics(name: Option<string> := None)
      modifies this
      ensures metrics == Cleared(old(metrics), name)
    {
      if name.Some? && name.value != "" {
        if name.value in metrics {
          metrics := metrics - {name.value};
        }
      } else {
        metrics := map[];
      }
    }
  }

  // ---------------------------------------------------------------- health checks

  /** What a registered check does when run: return a verdict or raise. The check itself is
      code outside this model; only its behaviour is recorded. */
  datatype Probe = Returns(ok: bool) | Raises(error: string)

  /** A check's entry in the results of `check_all`: its verdict, or false when it raised. */
  function ProbeResult(p: Probe): bool {
    p.Returns? && p.ok
  }

  class HealthChecker {
    var checks: map<string, Probe>

    constructor()
      ensures checks == map[]
    {
      checks := map[];
    }

    /** `register_check`: a name registered again has its check replaced. */
    method RegisterCheck(name: string, check: Probe)
      modifies this
      ensures checks == old(checks)[name := check]
    {
      checks := checks[name := check];
    }

    /** `add_database_check`: registers "database", which is true exactly when a session
        can be opened and queried; any failure there is caught and reads false. */
    method AddDatabaseCheck(connects: bool)
      modifies this
      ensures checks == old(checks)["database" := Returns(connects)]
    {
      RegisterCheck("database", Returns(connects));
    }

    /** `add_api_check`: the check is registered as "api_" and the name. */
    method AddApiCheck(name: string, check: Probe)
      modifies this
      ensures checks == old(checks)["api_" + name := check]
    {
      RegisterCheck("api_" + name, check);
    }

    /** `check_all`: every registered check is run once; one that raises reads false. */
    method CheckAll() returns (results: map<string, bool>)
      ensures results.Keys == checks.Keys
      ensures forall name :: name in results ==> results[name] == ProbeResult(checks[name])
    {
      results := map[];
      var pending := checks.Keys;
      while pending != {}
        invariant pending <= checks.Keys
        invariant results.Keys == checks.Keys - pending
        invariant forall name :: name in results ==> results[name] == ProbeResult(checks[name])
        decreases pending
      {
        var name :| name in pending;
        var check := checks[name];
        match check {
          case Returns(ok) => results := results[name := ok];
          case Raises(_) => results := results[name := false];
        }
        pending := pending - {name};
      }
    }

    /** `is_healthy`: true with no checks registered, else true exactly when every check
        returned true. */
    method IsHealthy() returns (healthy: bool)
      ensures healthy <==> forall name :: name in checks ==> checks[name] == Returns(true)
    {
      var results := CheckAll();
      healthy := if |results| > 0 then (forall name | name in results :: results[name]) else true;
    }
  }

  // ---------------------------------------------------------------- bot-level metrics

  /** Python's `str` of a boolean. */
  function BoolText(b: bool): string {
    if b then "True" else "False"
  }

  const CommandExecutions := "command_executions_total"

  /** Per-command statistics of `get_command_stats`. */
  datatype CommandStats = CommandStats(total: real, success: real, failure: real)

  function CommandOf(m: Metric): string {
    if "command" in m.labels then m.labels["command"] else "unknown"
  }

  /** The success test `get_command_stats` applies: the label (default "true") compared with
      "true". */
  predicate SuccessAsWritten(m: Metric) {
    (if "success" in m.labels then m.labels["success"] else "true") == "true"
  }

  /** The success test matching what `increment_command_usage` writes: the label is "True",
      or missing as in the default. */
  predicate SuccessLabelled(m: Metric) {
    (if "success" in m.labels then m.labels["success"] else "True") == "True"
  }

  /** The statistics of a list of command metrics under a success test: per command, the
      values summed into the total and into success or failure. */
  function Tally(ms: seq<Metric>, success: Metric -> bool): map<string, CommandStats>
    decreases |ms|
  {
    if ms == [] then map[] else Count(Tally(ms[..|ms| - 1], success), ms[|ms| - 1], success(ms[|ms| - 1]))
  }

  /** One step of the tally: the metric's value added to its command's total and to its
      successes or failures. */
  function Count(stats: map<string, CommandStats>, m: Metric, ok: bool): map<string, CommandStats> {
    var cmd := CommandOf(m);
    var s := if cmd in stats then stats[cmd] else CommandStats(0.0, 0.0, 0.0);
    stats[cmd := if ok then s.(total := s.total + m.value, success := s.success + m.value)
                 else s.(total := s.total + m.value, failure := s.failure + m.value)]
  }

  /** Every command's total is its successes plus its failures. */
  lemma {:induction false} TallyBalanced(ms: seq<Metric>, success: Metric -> bool)
    ensures forall c :: c in Tally(ms, success) ==>
      Tally(ms, success)[c].total == Tally(ms, success)[c].success + Tally(ms, success)[c].failure
    decreases |ms|
  {
    if ms != [] {
      TallyBalanced(ms[..|ms| - 1], success);
    }
  }

  /** A command appears in the statistics exactly when some metric names it. */
  lemma {:induction false} TallyCommands(ms: seq<Metric>, success: Metric -> bool, c: string)
    ensures c in Tally(ms, success) <==> exists i :: 0 <= i < |ms| && CommandOf(ms[i]) == c
    decreases |ms|
  {
    if ms != [] {
      var init := ms[..|ms| - 1];
      TallyCommands(init, success, c);
      if exists i :: 0 <= i < |ms| && CommandOf(ms[i]) == c {
        var i :| 0 <= i < |ms| && CommandOf(ms[i]) == c;
        if i < |ms| - 1 { assert CommandOf(init[i]) == c; }
      }
      if exists i :: 0 <= i < |init| && CommandOf(init[i]) == c {
        var i :| 0 <= i < |init| && CommandOf(init[i]) == c;
        assert CommandOf(ms[i]) == c;
      }
    }
  }

  /** With the test as written, a history in which every success label is what
      `increment_command_usage` writes ("True" or "False") has no successes at all. */
  lemma {:induction false} TallyAsWrittenCountsNoSuccess(ms: seq<Metric>)
    requires forall i :: 0 <= i < |ms| ==> "success" in ms[i].labels && ms[i].labels["success"] in ["True", "False"]
    ensures forall c :: c in Tally(ms, SuccessAsWritten) ==> Tally(ms, SuccessAsWritten)[c].success == 0.0
    decreases |ms|
  {
    if ms != [] {
      var init := ms[..|ms| - 1];
      assert forall i :: 0 <= i < |init| ==> init[i] == ms[i];
      TallyAsWrittenCountsNoSuccess(init);
      assert !SuccessAsWritten(ms[|ms| - 1]);
    }
  }

  /** One successful execution of "ping": counted as a failure by the test as written, as a
      success by the corrected test. */
  lemma CommandStatsSuccessExample(now: int)
    ensures var m := Metric(CommandExecutions, Counter, 1.0, map["command" := "ping", "success" := BoolText(true)], now);
      && Tally([m], SuccessAsWritten)["ping"] == CommandStats(1.0, 0.0, 1.0)
      && Tally([m], SuccessLabelled)["ping"] == CommandStats(1.0, 1.0, 0.0)
  {
    var m := Metric(CommandExecutions, Counter, 1.0, map["command" := "ping", "success" := BoolText(true)], now);
    assert [m][..0] == [];
  }

  /** `increment_error`: the message label holds at most the first 100 characters of the
      message and is left out when the message is missing or empty. */
  function ErrorLabels(errorType: string, errorMessage: Option<string>): (r: Labels)
    ensures "type" in r && r["type"] == errorType
    ensures "message" in r <==> errorMessage.Some? && errorMessage.value != ""
    ensures "message" in r ==> |r["message"]| <= 100 && r["message"] == SliceTo(errorMessage.value, 100)
    ensures r.Keys <= {"type", "message"}
  {
    var base := map["type" := errorType];
    if errorMessage.Some? && errorMessage.value != "" then base["message" := SliceTo(errorMessage.value, 100)]
    else base
  }

  /** The bot-level counters. The performance monitor is reduced to its metrics collector. */
  class BotMetrics {
    const collector: MetricsCollector
    const healthChecker: HealthChecker

    constructor()
      ensures fresh(collector) && fresh(healthChecker)
      ensures collector.metrics == map[] && healthChecker.checks == map[]
    {
      collector := new MetricsCollector();
      healthChecker := new HealthChecker();
    }

    /** `increment_command_usage`: a counter of 1 labelled with the command and `str(success)`. */
    method IncrementCommandUsage(commandName: string, now: int, success: bool := true)
      modifies collector
      ensures collector.metrics == Added(old(collector.metrics), CommandExecutions,
        Metric(CommandExecutions, Counter, 1.0, map["command" := commandName, "success" := BoolText(success)], now))
    {
      collector.IncrementCounter(CommandExecutions, now,
                                 Some(map["command" := commandName, "success" := BoolText(success)]));
    }

    /** `record_command_duration` */
    method RecordCommandDuration(commandName: string, durationSeconds: real, now: int, success: bool := true)
      modifies collector
      ensures collector.metrics == Added(old(collector.metrics), "command_duration_seconds",
        Metric("command_duration_seconds", Histogram, durationSeconds,
               map["command" := commandName, "success" := BoolText(success)], now))
    {
      collector.ObserveHistogram("command_duration_seconds", durationSeconds, now,
                                 Some(map["command" := commandName, "success" := BoolText(success)]));
    }

    /** `increment_api_call` */
    method IncrementApiCall(apiName: string, now: int, success: bool := true)
      modifies collector
      ensures collector.metrics == Added(old(collector.metrics), "api_calls_total",
        Metric("api_calls_total", Counter, 1.0, map["api" := apiName, "success" := BoolText(success)], now))
    {
      collector.IncrementCounter("api_calls_total", now, Some(map["api" := apiName, "success" := BoolText(success)]));
    }

    /** `record_api_duration` */
    method RecordApiDuration(apiName: string, durationSeconds: real, now: int, success: bool := true)
      modifies collector
      ensures collector.metrics == Added(old(collector.metrics), "api_duration_seconds",
        Metric("api_duration_seconds", Histogram, durationSeconds,
               map["api" := apiName, "success" := BoolText(success)], now))
    {
      collector.ObserveHistogram("api_duration_seconds", durationSeconds, now,
                                 Some(map["api" := apiName, "success" := BoolText(success)]));
    }

    /** `increment_error` */
    method IncrementError(errorType: string, now: int, errorMessage: Option<string> := None)
      modifies collector
      ensures collector.metrics == Added(old(collector.metrics), "errors_total",
        Metric("errors_total", Counter, 1.0, ErrorLabels(errorType, errorMessage), now))
    {
      var labels := map["type" := errorType];
      if errorMessage.Some? && errorMessage.value != "" {
        labels := labels["message" := SliceTo(errorMessage.value, 100)];
      }
      collector.IncrementCounter("errors_total", now, Some(labels));
    }

    /** `record_user_interaction` */
    method RecordUserInteraction(interactionType: string, userId: string, now: int)
      modifies collector
      ensures collector.metrics == Added(old(collector.metrics), "user_interactions_total",
        Metric("user_interactions_total", Counter, 1.0, map["type" := interactionType, "user_id" := userId], now))
    {
      collector.IncrementCounter("user_interactions_total", now,
                                 Some(map["type" := interactionType, "user_id" := userId]));
    }

    /** `get_command_stats`, with the success test corrected to the label that
        `increment_command_usage` writes. */
    method GetCommandStats() returns (stats: map<string, CommandStats>)
      ensures stats == Tally(ListIn(collector.metrics, CommandExecutions), SuccessLabelled)
      ensures forall c :: c in stats ==> stats[c].total == stats[c].success + stats[c].failure
    {
      var ms := collector.GetMetric(CommandExecutions);
      stats := map[];
      var i := 0;
      while i < |ms|
        invariant 0 <= i <= |ms|
        invariant stats == Tally(ms[..i], SuccessLabelled)
      {
        assert ms[..i + 1][..i] == ms[..i];
        var m := ms[i];
        var ok := (if "success" in m.labels then m.labels["success"] else "True") == "True";
        stats := Count(stats, m, ok);
        i := i + 1;
      }
      assert ms[..|ms|] == ms;
      TallyBalanced(ms, SuccessLabelled);
    }
  }

  /** Round trip through the bot counters: a successful use recorded on an empty collector
      reads back as one success. */
  lemma UsageThenStats(commandName: string, now: int)
    ensures var m := Metric(CommandExecutions, Counter, 1.0,
                            map["command" := commandName, "success" := BoolText(true)], now);
      Tally(ListIn(Added(map[], CommandExecutions, m), CommandExecutions), SuccessLabelled)[commandName]
        == CommandStats(1.0, 1.0, 0.0)
  {
    var m := Metric(CommandExecutions, Counter, 1.0, map["command" := commandName, "success" := BoolText(true)], now);
    assert ListIn(Added(map[], CommandExecutions, m), CommandExecutions) == [m];
    assert [m][..0] == [];
  }
}
