/** The AnalysisRun controller: scheduling, measuring, assessing and trimming, as a class whose methods update
    the run's status in loops, each tied to a function of the status it started from. */
module AnalysisRuns {
  import opened Prelude
  import opened AnalysisTypes
  import opened MetricLife

  // ---------------------------------------------------------------------------------------------
  // The status order

  const STATUS_ORDER: seq<Phase> := [Successful, Running, Pending, Inconclusive, Error, Failed]

  /** Position from best to worst; a phase that is not listed counts as the best. */
  function Rank(p: Phase): int {
    match p
    case Unset => 0
    case Successful => 0
    case Running => 1
    case Pending => 2
    case Inconclusive => 3
    case Error => 4
    case Failed => 5
  }

  method IsWorse(current: Phase, new_: Phase) returns (worse: bool)
    ensures worse <==> Rank(new_) > Rank(current)
  {
    var currentIndex, newIndex := 0, 0;
    for i := 0 to |STATUS_ORDER|
      invariant currentIndex == if Rank(current) < i then Rank(current) else 0
      invariant newIndex == if Rank(new_) < i then Rank(new_) else 0
    {
      if current == STATUS_ORDER[i] {
        currentIndex := i;
      }
      if new_ == STATUS_ORDER[i] {
        newIndex := i;
      }
    }
    worse := newIndex > currentIndex;
  }

  // ---------------------------------------------------------------------------------------------
  // Specification functions

  /** A measurement to take now: a fresh one, or one that is in flight and is resumed or terminated. */
  datatype Task = Task(metric: Metric, resuming: bool)

  datatype GcOutcome = Trimmed | NoGcProvider | GcFailed

  /** What never changes while the run exists. */
  datatype RunSpec = RunSpec(metrics: seq<Metric>, dryRuns: set<string>, retention: map<string, int>)

  /** The status of a run, and whether a user or the rollout asked it to terminate. */
  datatype RunState = RunState(
    results: seq<MetricResult>, phase: Phase, startedAt: Option<int>, completedAt: Option<int>, terminate: bool)

  /** The world as one reconcile meets it. `resolved` says the arguments, dry-run rules and retention rules
      resolved; `secrets` says the secret arguments did. */
  datatype World = World(now: int, resolved: bool, secrets: bool, ask: string -> Answer, gc: string -> GcOutcome)

  predicate IsTerminating(terminate: bool, results: seq<MetricResult>) {
    terminate || exists i :: 0 <= i < |results| && !results[i].dryRun && Unhealthy(results[i].phase)
  }

  /** Seconds between the end of a measurement and the next one. */
  function RetryInterval(m: Metric, last: Measurement): int {
    if last.phase == Error then ERROR_RETRY_INTERVAL else ValueOr(m.interval, ERROR_RETRY_INTERVAL)
  }

  /** The task to run now for a metric whose result is `r`, if any. */
  function TaskFor(m: Metric, r: Option<MetricResult>, startedAt: Option<int>, terminating: bool,
      now: int): Option<Task>
  {
    var last := LastOf(r);
    if r.Some? && Completed(r.value.phase) then None
    else if last.Some? && last.value.finishedAt == None then
      if !terminating && last.value.resumeAt.Some? && last.value.resumeAt.value > now then None
      else Some(Task(m, true))
    else if terminating then None
    else if last == None then
      if m.initialDelay.Some? && (startedAt == None || startedAt.value + m.initialDelay.value > now) then None
      else Some(Task(m, false))
    else if CountReached(m, r.value) then None
    else if now > last.value.finishedAt.value + RetryInterval(m, last.value) then Some(Task(m, false))
    else None
  }

  function AsSeq<T>(o: Option<T>): seq<T> {
    if o.Some? then [o.value] else []
  }

  function TasksFor(ms: seq<Metric>, results: seq<MetricResult>, startedAt: Option<int>, terminating: bool,
      now: int): seq<Task>
  {
    if ms == [] then [] else
      TasksFor(ms[..|ms| - 1], results, startedAt, terminating, now)
      + AsSeq(TaskFor(ms[|ms| - 1], Find(results, ms[|ms| - 1].name), startedAt, terminating, now))
  }

  /** The result a task leaves for its metric. */
  function TaskResult(t: Task, found: Option<MetricResult>, ask: string -> Answer, dryRuns: set<string>): MetricResult {
    Record(t.metric.name, t.metric.name in dryRuns, found, t.resuming, ask(t.metric.name))
  }

  /** The results after the tasks ran one after another. */
  function RunTasks(results: seq<MetricResult>, tasks: seq<Task>, ask: string -> Answer,
      dryRuns: set<string>): seq<MetricResult>
  {
    if tasks == [] then results else
      var before := RunTasks(results, tasks[..|tasks| - 1], ask, dryRuns);
      var t := tasks[|tasks| - 1];
      Put(before, TaskResult(t, Find(before, t.metric.name), ask, dryRuns))
  }

  function AssessOne(results: seq<MetricResult>, m: Metric, terminating: bool): seq<MetricResult> {
    var r := Find(results, m.name);
    if r == None || r.value.phase == AssessMetric(m, r.value, terminating) then results
    else Put(results, r.value.(phase := AssessMetric(m, r.value, terminating)))
  }

  function AssessAll(results: seq<MetricResult>, ms: seq<Metric>, terminating: bool): seq<MetricResult> {
    if ms == [] then results
    else AssessOne(AssessAll(results, ms[..|ms| - 1], terminating), ms[|ms| - 1], terminating)
  }

  predicate HasCompleted(results: seq<MetricResult>, m: Metric) {
    Find(results, m.name).Some? && Completed(Find(results, m.name).value.phase)
  }

  /** The vote of a metric: its phase, once it is completed and unless it is in dry-run mode. */
  function Vote(results: seq<MetricResult>, m: Metric, dryRuns: set<string>): Option<Phase> {
    if m.name !in dryRuns && HasCompleted(results, m) then Some(Find(results, m.name).value.phase) else None
  }

  predicate AllCompleted(results: seq<MetricResult>, ms: seq<Metric>) {
    forall i :: 0 <= i < |ms| ==> HasCompleted(results, ms[i])
  }

  /** `p` is the worst vote, with Successful as the verdict when nothing worse was voted. */
  ghost predicate IsWorstVote(p: Phase, results: seq<MetricResult>, ms: seq<Metric>, dryRuns: set<string>) {
    && (p == Successful || exists i :: 0 <= i < |ms| && Vote(results, ms[i], dryRuns) == Some(p))
    && forall i :: 0 <= i < |ms| && Vote(results, ms[i], dryRuns).Some? ==>
         Rank(Vote(results, ms[i], dryRuns).value) <= Rank(p)
  }

  predicate DistinctMetrics(ms: seq<Metric>) {
    forall i, j :: 0 <= i < j < |ms| ==> ms[i].name != ms[j].name
  }

  /** How many measurements of metric `name` are kept. */
  function KeepLimit(spec: RunSpec, name: string): int {
    if name in spec.retention && spec.retention[name] > 0 then spec.retention[name]
    else DEFAULT_MEASUREMENT_HISTORY_LIMIT
  }

  predicate Known(ms: seq<Metric>, name: string) {
    exists i :: 0 <= i < |ms| && ms[i].name == name
  }

  predicate TooLong(spec: RunSpec, r: MetricResult) {
    |r.measurements| > KeepLimit(spec, r.name) && Known(spec.metrics, r.name)
  }

  /** A result after trimming, unless its provider is missing. */
  function Swept(spec: RunSpec, r: MetricResult, gc: string -> GcOutcome): MetricResult {
    if !TooLong(spec, r) || gc(r.name).NoGcProvider? then r
    else r.(measurements := Trim(r.measurements, KeepLimit(spec, r.name)))
  }

  /** The results after trimming: a failing provider stops the sweep, a missing one skips its result. */
  function Sweep(spec: RunSpec, results: seq<MetricResult>, gc: string -> GcOutcome): seq<MetricResult> {
    if results == [] || (TooLong(spec, results[0]) && gc(results[0].name).GcFailed?) then results
    else [Swept(spec, results[0], gc)] + Sweep(spec, results[1..], gc)
  }

  /** Assessing metric `i` changes what is found for it and for no earlier metric. */
  lemma {:induction false} AssessOneFind(before: seq<MetricResult>, m: Metric, terminating: bool, name: string)
    ensures Find(AssessOne(before, m, terminating), name) ==
      var r := Find(before, name);
      if name == m.name && r.Some? then Some(r.value.(phase := AssessMetric(m, r.value, terminating))) else r
  {
    var r := Find(before, m.name);
    if r.Some? {
      FindPut(before, r.value.(phase := AssessMetric(m, r.value, terminating)), name);
    }
  }

  /** Assessing metric `i` changes nothing about the metrics before it. */
  lemma {:induction false} EarlierUnchanged(before: seq<MetricResult>, ms: seq<Metric>, i: nat, k: nat,
      terminating: bool, dryRuns: set<string>)
    requires DistinctMetrics(ms) && k < i < |ms|
    ensures
      var after := AssessOne(before, ms[i], terminating);
      && HasCompleted(after, ms[k]) == HasCompleted(before, ms[k])
      && Vote(after, ms[k], dryRuns) == Vote(before, ms[k], dryRuns)
  {
    hide AssessOne;
    AssessOneFind(before, ms[i], terminating, ms[k].name);
  }

  /** How far the assessment of a run has come: `worst` is Unset until a metric is completed. */
  ghost predicate Assessed(results: seq<MetricResult>, ms: seq<Metric>, dryRuns: set<string>, worst: Phase,
      everythingCompleted: bool)
  {
    && (everythingCompleted <==> AllCompleted(results, ms))
    && (worst == Unset <==> forall i :: 0 <= i < |ms| ==> !HasCompleted(results, ms[i]))
    && (worst != Unset ==> Completed(worst) && IsWorstVote(worst, results, ms, dryRuns))
  }

  lemma {:induction false} AssessedStep(before: seq<MetricResult>, ms: seq<Metric>, i: nat, terminating: bool,
      dryRuns: set<string>, worst: Phase, all: bool, worst': Phase, all': bool)
    requires DistinctMetrics(ms) && i < |ms|
    requires Assessed(before, ms[..i], dryRuns, worst, all)
    requires
      var after := AssessOne(before, ms[i], terminating);
      var done := HasCompleted(after, ms[i]);
      && all' == (all && done)
      && (!done ==> worst' == worst)
      && (done && ms[i].name in dryRuns ==> worst' == if worst == Unset then Successful else worst)
      && (done && ms[i].name !in dryRuns ==>
            var p := Find(after, ms[i].name).value.phase;
            worst' == if worst == Unset || Rank(p) > Rank(worst) then p else worst)
    ensures Assessed(AssessOne(before, ms[i], terminating), ms[..i + 1], dryRuns, worst', all')
  {
    hide AssessOne;
    var after := AssessOne(before, ms[i], terminating);
    forall k | 0 <= k < i
      ensures HasCompleted(after, ms[k]) == HasCompleted(before, ms[k])
      ensures Vote(after, ms[k], dryRuns) == Vote(before, ms[k], dryRuns)
    {
      EarlierUnchanged(before, ms, i, k, terminating, dryRuns);
    }
    AssessedExtends(before, after, ms[..i + 1], dryRuns, worst, all, worst', all') by {
      assert ms[..i + 1][..i] == ms[..i];
    }
  }

  lemma {:induction false} AssessedExtends(before: seq<MetricResult>, after: seq<MetricResult>, ms: seq<Metric>,
      dryRuns: set<string>, worst: Phase, all: bool, worst': Phase, all': bool)
    requires ms != []
    requires Assessed(before, ms[..|ms| - 1], dryRuns, worst, all)
    requires forall k :: 0 <= k < |ms| - 1 ==>
      && HasCompleted(after, ms[k]) == HasCompleted(before, ms[k])
      && Vote(after, ms[k], dryRuns) == Vote(before, ms[k], dryRuns)
    requires
      var done, v := HasCompleted(after, ms[|ms| - 1]), Vote(after, ms[|ms| - 1], dryRuns);
      && all' == (all && done)
      && (done || v == None)
      && (!done ==> worst' == worst)
      && (done && v == None ==> worst' == if worst == Unset then Successful else worst)
      && (v.Some? ==>
            && Completed(v.value)
            && worst' == if worst == Unset || Rank(v.value) > Rank(worst) then v.value else worst)
    ensures Assessed(after, ms, dryRuns, worst', all')
  {
    hide HasCompleted;
    var head, n := ms[..|ms| - 1], |ms| - 1;
    assert forall k :: 0 <= k < n ==> head[k] == ms[k];
    assert worst == Unset ==> forall k :: 0 <= k < n ==> Vote(before, head[k], dryRuns) == None by {
      if worst == Unset {
        forall k | 0 <= k < n
          ensures Vote(before, head[k], dryRuns) == None
        {
          NoVoteYet(before, head[k], dryRuns);
        }
      }
    }
    WorstVoteStep(before, head, after, ms, dryRuns, worst, worst');
  }

  lemma {:induction false} NoVoteYet(results: seq<MetricResult>, m: Metric, dryRuns: set<string>)
    ensures !HasCompleted(results, m) ==> Vote(results, m, dryRuns) == None
  {
  }

  lemma {:induction false} WorstVoteStep(before: seq<MetricResult>, head: seq<Metric>, after: seq<MetricResult>,
      ms: seq<Metric>, dryRuns: set<string>, worst: Phase, worst': Phase)
    requires |ms| == |head| + 1
    requires forall k :: 0 <= k < |head| ==> Vote(after, ms[k], dryRuns) == Vote(before, head[k], dryRuns)
    requires worst == Unset ==> forall k :: 0 <= k < |head| ==> Vote(before, head[k], dryRuns) == None
    requires worst != Unset ==> Completed(worst) && IsWorstVote(worst, before, head, dryRuns)
    requires
      var v := Vote(after, ms[|head|], dryRuns);
      if v.Some? then worst' == if worst == Unset || Rank(v.value) > Rank(worst) then v.value else worst
      else worst' == worst || (worst == Unset && worst' == Successful)
    requires Vote(after, ms[|head|], dryRuns).Some? ==> Completed(Vote(after, ms[|head|], dryRuns).value)
    ensures worst' != Unset ==> Completed(worst') && IsWorstVote(worst', after, ms, dryRuns)
  {
    hide Vote;
    var v := Vote(after, ms[|head|], dryRuns);
    if worst != Unset && worst' == worst && worst != Successful {
      var k :| 0 <= k < |head| && Vote(before, head[k], dryRuns) == Some(worst);
      assert Vote(after, ms[k], dryRuns) == Some(worst');
    }
  }

  /** What a run is told after an assessment: it completes exactly when it is terminating or every metric is
      completed, and then with the worst vote; until then it is Running. */
  ghost predicate Verdict(status: Phase, results: seq<MetricResult>, ms: seq<Metric>, dryRuns: set<string>,
      terminating: bool)
  {
    && (Completed(status) <==> terminating || (ms != [] && AllCompleted(results, ms)))
    && (Completed(status) ==> IsWorstVote(status, results, ms, dryRuns))
    && (!Completed(status) ==> status == Running)
  }

  lemma {:induction false} VerdictOf(results: seq<MetricResult>, ms: seq<Metric>, dryRuns: set<string>, worst: Phase,
      all: bool, terminating: bool)
    requires Assessed(results, ms, dryRuns, worst, all)
    ensures Verdict(
      if terminating then if worst == Unset then Successful else worst
      else if !all || worst == Unset then Running else worst,
      results, ms, dryRuns, terminating)
  {
    if worst == Unset && ms != [] {
      assert !HasCompleted(results, ms[0]);
    }
  }

  /** One step of the sweep moves the swept prefix forward by one result. */
  lemma {:induction false} SweepStep(spec: RunSpec, done: seq<MetricResult>, rest: seq<MetricResult>,
      gc: string -> GcOutcome)
    requires rest != [] && !(TooLong(spec, rest[0]) && gc(rest[0].name).GcFailed?)
    ensures done + Sweep(spec, rest, gc) == done + [Swept(spec, rest[0], gc)] + Sweep(spec, rest[1..], gc)
  {
  }

  lemma {:induction false} PutAt(results: seq<MetricResult>, i: nat, r: MetricResult)
    requires i < |results| && results[i].name == r.name
    requires forall k :: 0 <= k < i ==> results[k].name != r.name
    ensures Put(results, r) == results[i := r]
  {
    if i > 0 {
      PutAt(results[1..], i - 1, r);
      assert [results[0]] + results[1..][i - 1 := r] == results[i := r];
    }
  }

  lemma {:induction false} PutNew(results: seq<MetricResult>, r: MetricResult)
    requires forall k :: 0 <= k < |results| ==> results[k].name != r.name
    ensures Put(results, r) == results + [r]
  {
    if results != [] {
      PutNew(results[1..], r);
    }
  }

  const INITIAL_RUN := RunState([], Unset, None, None, false)

  /** The results after the tasks that are due at `w.now` ran one after another. */
  function MeasuredIn(spec: RunSpec, w: World, s: RunState): seq<MetricResult> {
    RunTasks(s.results,
             TasksFor(spec.metrics, s.results, s.startedAt, IsTerminating(s.terminate, s.results), w.now),
             w.ask, spec.dryRuns)
  }

  function AssessedIn(spec: RunSpec, w: World, s: RunState): seq<MetricResult> {
    var measured := MeasuredIn(spec, w, s);
    AssessAll(measured, spec.metrics, IsTerminating(s.terminate, measured))
  }

  /** The status one reconcile of an uncompleted, well-formed run leaves. */
  ghost predicate Advances(spec: RunSpec, w: World, s: RunState, s': RunState) {
    && s'.results == Sweep(spec, AssessedIn(spec, w, s), w.gc)
    && Verdict(s'.phase, AssessedIn(spec, w, s), spec.metrics, spec.dryRuns,
               IsTerminating(s.terminate, MeasuredIn(spec, w, s)))
    && s'.startedAt == (if s.startedAt == None then Some(w.now) else s.startedAt)
    && s'.completedAt == (if Completed(s'.phase) && s.completedAt == None then Some(w.now) else s.completedAt)
    && s'.terminate == s.terminate
  }

  ghost predicate Next(spec: RunSpec, w: World, s: RunState, s': RunState) {
    if Completed(s.phase) then s' == s
    else if !w.resolved || !ValidMetrics(spec.metrics) || !w.secrets then s' == s.(phase := Error)
    else Advances(spec, w, s, s')
  }

  // ---------------------------------------------------------------------------------------------
  // The controller

  /** The run and its status, updated in place by the controller. */
  class AnalysisRun {
    var results: seq<MetricResult>
    var phase: Phase
    var startedAt: Option<int>
    var completedAt: Option<int>
    var terminate: bool

    constructor ()
      ensures State() == INITIAL_RUN
    {
      results, phase, startedAt, completedAt, terminate := [], Unset, None, None, false;
    }

    function State(): RunState
      reads this
    {
      RunState(results, phase, startedAt, completedAt, terminate)
    }

    method Terminating() returns (t: bool)
      ensures t == IsTerminating(terminate, results)
    {
      if terminate {
        return true;
      }
      for i := 0 to |results|
        invariant forall k :: 0 <= k < i ==> results[k].dryRun || !Unhealthy(results[k].phase)
      {
        if !results[i].dryRun && Unhealthy(results[i].phase) {
          return true;
        }
      }
      return false;
    }

    method GetResult(name: string) returns (r: Option<MetricResult>)
      ensures r == Find(results, name)
    {
      for i := 0 to |results|
        invariant Find(results, name) == Find(results[i..], name)
      {
        if results[i].name == name {
          return Some(results[i]);
        }
        assert results[i..][1..] == results[i + 1..];
      }
      return None;
    }

    method SetResult(r: MetricResult)
      modifies this`results
      ensures results == Put(old(results), r)
    {
      for i := 0 to |results|
        invariant results == old(results)
        invariant forall k :: 0 <= k < i ==> results[k].name != r.name
      {
        if results[i].name == r.name {
          PutAt(results, i, r);
          results := results[i := r];
          return;
        }
      }
      PutNew(results, r);
      results := results + [r];
    }

    method GenerateMetricTasks(ms: seq<Metric>, now: int) returns (tasks: seq<Task>)
      ensures tasks == TasksFor(ms, results, startedAt, IsTerminating(terminate, results), now)
    {
      tasks := [];
      var terminating := Terminating();
      for i := 0 to |ms|
        invariant tasks == TasksFor(ms[..i], results, startedAt, terminating, now)
      {
        var r := GetResult(ms[i].name);
        assert ms[..i + 1][..i] == ms[..i];
        tasks := tasks + AsSeq(TaskFor(ms[i], r, startedAt, terminating, now));
      }
      assert ms[..|ms|] == ms;
    }

    /** The measuring goroutines, run one after another. */
    method RunMeasurements(tasks: seq<Task>, ask: string -> Answer, dryRuns: set<string>)
      modifies this`results
      ensures results == RunTasks(old(results), tasks, ask, dryRuns)
    {
      for i := 0 to |tasks|
        invariant results == RunTasks(old(results), tasks[..i], ask, dryRuns)
      {
        var found := GetResult(tasks[i].metric.name);
        assert tasks[..i + 1][..i] == tasks[..i];
        SetResult(TaskResult(tasks[i], found, ask, dryRuns));
      }
      assert tasks[..|tasks|] == tasks;
    }

    /** Bring one metric's phase up to date and return it; a metric without a result has no phase yet. */
    method AssessMetricStatus(m: Metric, terminating: bool) returns (status: Option<Phase>)
      modifies this`results
      ensures results == AssessOne(old(results), m, terminating)
      ensures status == if Find(results, m.name).Some? then Some(Find(results, m.name).value.phase) else None
    {
      AssessOneFind(results, m, terminating, m.name);
      var found := GetResult(m.name);
      if found == None {
        return None;
      }
      var metricStatus := AssessMetric(m, found.value, terminating);
      if found.value.phase != metricStatus {
        SetResult(found.value.(phase := metricStatus));
      }
      return Some(metricStatus);
    }

    /** Assess every metric, then the run: a completed verdict is the worst phase of the completed metrics outside
        dry-run mode, and Successful when there is none. */
    method AssessRunStatus(ms: seq<Metric>, dryRuns: set<string>, now: int) returns (status: Phase)
      requires DistinctMetrics(ms)
      modifies this`results, this`startedAt
      ensures startedAt == if old(startedAt) == None then Some(now) else old(startedAt)
      ensures results == AssessAll(old(results), ms, IsTerminating(terminate, old(results)))
      ensures Verdict(status, results, ms, dryRuns, IsTerminating(terminate, old(results)))
    {
      hide AssessOne, Verdict, IsTerminating, Vote, IsWorstVote;
      var terminating := Terminating();
      var worst := Unset;
      var everythingCompleted := true;
      if startedAt == None {
        startedAt := Some(now);
      }
      for i := 0 to |ms|
        invariant startedAt == if old(startedAt) == None then Some(now) else old(startedAt)
        invariant results == AssessAll(old(results), ms[..i], terminating)
        invariant Assessed(results, ms[..i], dryRuns, worst, everythingCompleted)
      {
        ghost var before, worstBefore, allBefore := results, worst, everythingCompleted;
        assert ms[..i + 1][..i] == ms[..i];
        var metricStatus := AssessMetricStatus(ms[i], terminating);
        if metricStatus == None || !Completed(metricStatus.value) {
          everythingCompleted := false;
        } else if ms[i].name !in dryRuns {
          var worse := IsWorse(worst, metricStatus.value);
          if worst == Unset || worse {
            worst := metricStatus.value;
          }
        } else if worst == Unset {
          worst := Successful;
        }
        AssessedStep(before, ms, i, terminating, dryRuns, worstBefore, allBefore, worst, everythingCompleted);
      }
      assert ms[..|ms|] == ms;
      VerdictOf(results, ms, dryRuns, worst, everythingCompleted, terminating);
      if terminating {
        return if worst == Unset then Successful else worst;
      }
      return if !everythingCompleted || worst == Unset then Running else worst;
    }

    method GarbageCollect(spec: RunSpec, gc: string -> GcOutcome) returns (ok: bool)
      modifies this`results
      ensures results == Sweep(spec, old(results), gc)
      ensures ok <==>
        forall i :: 0 <= i < |old(results)| && TooLong(spec, old(results)[i]) ==> gc(old(results)[i].name).Trimmed?
    {
      ok := true;
      ghost var done, rest := [], results;
      for i := 0 to |results|
        invariant |done| == i && |results| == |old(results)| && results == done + rest
        invariant done + Sweep(spec, rest, gc) == Sweep(spec, old(results), gc)
        invariant rest == old(results)[i..]
        invariant ok <==> forall k :: 0 <= k < i && TooLong(spec, old(results)[k]) ==> gc(old(results)[k].name).Trimmed?
      {
        var r := results[i];
        assert r == rest[0];
        if TooLong(spec, r) && gc(r.name).GcFailed? {
          assert Sweep(spec, rest, gc) == rest;
          return false;
        }
        ok := ok && !(TooLong(spec, r) && gc(r.name).NoGcProvider?);
        SweepStep(spec, done, rest, gc);
        var swept := Swept(spec, r, gc);
        UpdateSplit(done, rest, swept);
        results := results[i := swept];
        done, rest := done + [swept], rest[1..];
      }
      assert rest == [] && Sweep(spec, rest, gc) == rest;
    }

    method Reconcile(spec: RunSpec, w: World)
      modifies this
      ensures Next(spec, w, old(State()), State())
    {
      hide TasksFor, RunTasks, AssessAll, Sweep, IsTerminating, ValidMetric, Verdict;
      if Completed(phase) {
        return;
      }
      if !w.resolved || !ValidMetrics(spec.metrics) {
        phase := Error;
        return;
      }
      var tasks := GenerateMetricTasks(spec.metrics, w.now);
      if !w.secrets {
        phase := Error;
        return;
      }
      RunMeasurements(tasks, w.ask, spec.dryRuns);
      var newStatus := AssessRunStatus(spec.metrics, spec.dryRuns, w.now);
      if newStatus != phase {
        phase := newStatus;
        if Completed(newStatus) && completedAt == None {
          completedAt := Some(w.now);
        }
      }
      var _ := GarbageCollect(spec, w.gc);
    }
  }
}
