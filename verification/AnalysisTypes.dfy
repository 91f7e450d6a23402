/** The values of an AnalysisRun: phases, measurements, metric specifications and metric results. */
module AnalysisTypes {
  import opened Prelude

  /** Phase of a run, a metric or a measurement. `Unset` is the empty string of a fresh object. */
  datatype Phase = Unset | Pending | Running | Successful | Inconclusive | Error | Failed

  predicate Completed(p: Phase) {
    p in {Successful, Failed, Error, Inconclusive}
  }

  /** The phases that end a run early when a metric outside dry-run mode reaches them. */
  predicate Unhealthy(p: Phase) {
    p in {Failed, Error, Inconclusive}
  }

  /** Seconds to wait before a measurement that errored is repeated. */
  const ERROR_RETRY_INTERVAL := 10

  const DEFAULT_CONSECUTIVE_ERROR_LIMIT := 4

  const DEFAULT_MEASUREMENT_HISTORY_LIMIT := 10

  /** One measurement; times are whole seconds, `value` is what the provider measured. */
  datatype Measurement = Measurement(phase: Phase, value: string, finishedAt: Option<int>, resumeAt: Option<int>)

  /** A metric specification after its arguments are resolved and its durations parsed. */
  datatype Metric = Metric(
    name: string,
    interval: Option<int>,
    initialDelay: Option<int>,
    count: Option<int>,
    failureLimit: Option<int>,
    inconclusiveLimit: Option<int>,
    consecutiveErrorLimit: Option<int>,
    consecutiveSuccessLimit: Option<int>)

  function ValueOr(o: Option<int>, default: int): int {
    if o.Some? then o.value else default
  }

  function EffectiveCount(m: Metric): Option<int> {
    if m.count == None || m.count.value == 0 then
      if m.interval == None then Some(1) else None
    else
      m.count
  }

  function FailureLimit(m: Metric): int { ValueOr(m.failureLimit, 0) }

  function InconclusiveLimit(m: Metric): int { ValueOr(m.inconclusiveLimit, 0) }

  function ErrorLimit(m: Metric): int { ValueOr(m.consecutiveErrorLimit, DEFAULT_CONSECUTIVE_ERROR_LIMIT) }

  function SuccessLimit(m: Metric): int { ValueOr(m.consecutiveSuccessLimit, 0) }

  /** The limits a run is allowed to start with; every other run ends in phase Error at once. */
  predicate ValidMetric(m: Metric) {
    && SuccessLimit(m) >= 0
    && FailureLimit(m) >= -1
    && !(SuccessLimit(m) == 0 && FailureLimit(m) == -1)
    && InconclusiveLimit(m) >= 0
    && ErrorLimit(m) >= 0
    && (ValueOr(m.count, 0) > 0 ==>
          && (FailureLimit(m) >= 0 ==> ValueOr(m.count, 0) >= FailureLimit(m) + SuccessLimit(m))
          && (FailureLimit(m) < 0 ==> ValueOr(m.count, 0) >= SuccessLimit(m))
          && ValueOr(m.count, 0) >= InconclusiveLimit(m))
    && (ValueOr(m.count, 0) > 1 ==> m.interval.Some?)
  }

  predicate ValidMetrics(ms: seq<Metric>) {
    && ms != []
    && (forall i :: 0 <= i < |ms| ==> ValidMetric(ms[i]))
    && (forall i, j :: 0 <= i < j < |ms| ==> ms[i].name != ms[j].name)
  }

  /** What a run remembers about one metric. */
  datatype MetricResult = MetricResult(
    name: string,
    phase: Phase,
    dryRun: bool,
    measurements: seq<Measurement>,
    count: int,
    successful: int,
    failed: int,
    inconclusive: int,
    error: int,
    consecutiveError: int,
    consecutiveSuccess: int)

  /** The first result stored under `name`. */
  function Find(results: seq<MetricResult>, name: string): (r: Option<MetricResult>)
    ensures r.Some? ==> r.value.name == name && r.value in results
    ensures r == None <==> forall i :: 0 <= i < |results| ==> results[i].name != name
  {
    if results == [] then None
    else if results[0].name == name then Some(results[0])
    else Find(results[1..], name)
  }

  /** The results after storing `r`: it replaces the first result of its name, or is added at the end. */
  function Put(results: seq<MetricResult>, r: MetricResult): seq<MetricResult> {
    if results == [] then [r]
    else if results[0].name == r.name then [r] + results[1..]
    else [results[0]] + Put(results[1..], r)
  }

  /** Storing a result changes what is found under its own name and under no other. */
  lemma {:induction false} FindPut(results: seq<MetricResult>, r: MetricResult, name: string)
    ensures Find(Put(results, r), name) == if name == r.name then Some(r) else Find(results, name)
  {
    if results == [] {
      assert Put(results, r)[1..] == [];
    } else if results[0].name == r.name {
      assert Put(results, r)[1..] == results[1..];
    } else {
      assert Put(results, r)[1..] == Put(results[1..], r);
      FindPut(results[1..], r, name);
    }
  }

  ghost predicate DistinctNames(results: seq<MetricResult>) {
    forall i, j :: 0 <= i < j < |results| ==> results[i].name != results[j].name
  }

  /** Storing a result never leaves two results under one name. */
  lemma {:induction false} PutDistinct(results: seq<MetricResult>, r: MetricResult)
    requires DistinctNames(results)
    ensures DistinctNames(Put(results, r))
    ensures forall q :: q in Put(results, r) ==> q.name == r.name || q in results
  {
    if results != [] && results[0].name != r.name {
      PutDistinct(results[1..], r);
      assert Put(results, r)[1..] == Put(results[1..], r);
    }
  }
}
