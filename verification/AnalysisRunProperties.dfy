/** What holds of every AnalysisRun, over whole sequences of reconciles. */
module AnalysisRunProperties {
  import opened Prelude
  import opened AnalysisTypes
  import opened MetricLife
  import opened AnalysisRuns

  // ---------------------------------------------------------------------------------------------
  // Runs

  /** What happens between two observed states: a reconcile whose status patch is stored, one whose patch is
      lost, or a request to terminate. */
  datatype Event = Reconciled(w: World) | PatchLost | TerminateRequested

  ghost predicate HonestWorld(w: World) {
    forall name :: Honest(w.ask(name))
  }

  ghost predicate Happens(spec: RunSpec, e: Event, s: RunState, s': RunState) {
    match e
    case Reconciled(w) => HonestWorld(w) && Next(spec, w, s, s')
    case PatchLost => s' == s
    case TerminateRequested => s' == s.(terminate := true)
  }

  ghost predicate IsRun(spec: RunSpec, events: seq<Event>, states: seq<RunState>) {
    && |states| == |events| + 1
    && states[0] == INITIAL_RUN
    && forall i :: 0 <= i < |events| ==> Happens(spec, events[i], states[i], states[i + 1])
  }

  // ---------------------------------------------------------------------------------------------
  // One metric inside the list of results

  /** The task for metric `name`. */
  function TaskNamed(tasks: seq<Task>, name: string): Option<Task> {
    if tasks == [] then None
    else if tasks[|tasks| - 1].metric.name == name then Some(tasks[|tasks| - 1])
    else TaskNamed(tasks[..|tasks| - 1], name)
  }

  ghost predicate DistinctTasks(tasks: seq<Task>) {
    forall i, j :: 0 <= i < j < |tasks| ==> tasks[i].metric.name != tasks[j].metric.name
  }

  lemma {:induction false} NamedNone(tasks: seq<Task>, name: string)
    ensures TaskNamed(tasks, name) == None <==> forall i :: 0 <= i < |tasks| ==> tasks[i].metric.name != name
    ensures TaskNamed(tasks, name).Some? ==> TaskNamed(tasks, name).value.metric.name == name
  {
    if tasks != [] {
      NamedNone(tasks[..|tasks| - 1], name);
    }
  }

  lemma {:induction false} NamedAppend(tasks: seq<Task>, t: Task, name: string)
    ensures TaskNamed(tasks + [t], name) == if t.metric.name == name then Some(t) else TaskNamed(tasks, name)
  {
    assert (tasks + [t])[..|tasks|] == tasks;
  }

  lemma {:induction false} TasksKnown(ms: seq<Metric>, results: seq<MetricResult>, startedAt: Option<int>,
      terminating: bool, now: int)
    ensures forall t :: t in TasksFor(ms, results, startedAt, terminating, now) ==> Known(ms, t.metric.name)
  {
    if ms != [] {
      var head := ms[..|ms| - 1];
      TasksKnown(head, results, startedAt, terminating, now);
      forall t | t in TasksFor(ms, results, startedAt, terminating, now)
        ensures Known(ms, t.metric.name)
      {
        if t in TasksFor(head, results, startedAt, terminating, now) {
          var i :| 0 <= i < |head| && head[i].name == t.metric.name;
          assert ms[i].name == t.metric.name;
        } else {
          assert ms[|ms| - 1].name == t.metric.name;
        }
      }
    }
  }

  /** Scheduling makes at most one task for a metric: the one that metric is due. */
  lemma {:induction false} TasksForNamed(ms: seq<Metric>, results: seq<MetricResult>, startedAt: Option<int>,
      terminating: bool, now: int, i: nat)
    requires DistinctMetrics(ms) && i < |ms|
    ensures TaskNamed(TasksFor(ms, results, startedAt, terminating, now), ms[i].name)
         == TaskFor(ms[i], Find(results, ms[i].name), startedAt, terminating, now)
  {
    hide TaskFor, TaskNamed, Find;
    var n := |ms| - 1;
    var before := TasksFor(ms[..n], results, startedAt, terminating, now);
    var task := TaskFor(ms[n], Find(results, ms[n].name), startedAt, terminating, now);
    if i == n {
      TasksKnown(ms[..n], results, startedAt, terminating, now);
      NamedNone(before, ms[n].name);
    } else {
      TasksForNamed(ms[..n], results, startedAt, terminating, now, i);
    }
    if task.Some? {
      TaskForShape(ms[n], Find(results, ms[n].name), startedAt, terminating, now);
      NamedAppend(before, task.value, ms[i].name);
    } else {
      assert before + AsSeq(task) == before;
    }
  }

  lemma {:induction false} TasksDistinct(ms: seq<Metric>, results: seq<MetricResult>, startedAt: Option<int>,
      terminating: bool, now: int)
    requires DistinctMetrics(ms)
    ensures DistinctTasks(TasksFor(ms, results, startedAt, terminating, now))
  {
    if ms != [] {
      var head := ms[..|ms| - 1];
      TasksDistinct(head, results, startedAt, terminating, now);
      TasksKnown(head, results, startedAt, terminating, now);
      var before := TasksFor(head, results, startedAt, terminating, now);
      forall k | 0 <= k < |before|
        ensures before[k].metric.name != ms[|ms| - 1].name
      {
        assert before[k] in before;
      }
    }
  }

  lemma {:induction false} TaskResultName(t: Task, found: Option<MetricResult>, ask: string -> Answer,
      dryRuns: set<string>)
    requires found.Some? ==> found.value.name == t.metric.name
    ensures TaskResult(t, found, ask, dryRuns).name == t.metric.name
    ensures TaskResult(t, found, ask, dryRuns).dryRun ==
      if found.Some? then found.value.dryRun else t.metric.name in dryRuns
    ensures TaskResult(t, found, ask, dryRuns).phase == if found.Some? then found.value.phase else Running
  {
  }

  /** After the tasks ran, a metric has the result of its own task, computed from what was stored before any ran. */
  lemma {:induction false} RunTasksFind(results: seq<MetricResult>, tasks: seq<Task>, ask: string -> Answer,
      dryRuns: set<string>, name: string)
    requires DistinctTasks(tasks)
    ensures Find(RunTasks(results, tasks, ask, dryRuns), name) ==
      match TaskNamed(tasks, name)
      case None => Find(results, name)
      case Some(t) => Some(TaskResult(t, Find(results, name), ask, dryRuns))
  {
    hide TaskResult;
    if tasks != [] {
      var init, t := tasks[..|tasks| - 1], tasks[|tasks| - 1];
      RunTasksFind(results, init, ask, dryRuns, name);
      NamedNone(init, name);
      var before := RunTasks(results, init, ask, dryRuns);
      TaskResultName(t, Find(before, t.metric.name), ask, dryRuns);
      FindPut(before, TaskResult(t, Find(before, t.metric.name), ask, dryRuns), name);
    }
  }

  function Reassessed(m: Metric, r: Option<MetricResult>, terminating: bool): Option<MetricResult> {
    if r == None then None else Some(r.value.(phase := AssessMetric(m, r.value, terminating)))
  }

  /** Assessing all metrics leaves a metric with its own assessment, whatever its place in the list. */
  lemma {:induction false} AssessAllFind(results: seq<MetricResult>, ms: seq<Metric>, terminating: bool, i: nat)
    requires DistinctMetrics(ms) && i < |ms|
    ensures
      Find(AssessAll(results, ms, terminating), ms[i].name) == Reassessed(ms[i], Find(results, ms[i].name), terminating)
  {
    hide AssessOne, AssessMetric, Find;
    var n := |ms| - 1;
    var before := AssessAll(results, ms[..n], terminating);
    AssessOneFind(before, ms[n], terminating, ms[i].name);
    if i < n {
      AssessAllFind(results, ms[..n], terminating, i);
    } else {
      AssessAllOther(results, ms[..n], terminating, ms[n].name);
    }
  }

  lemma {:induction false} AssessAllOther(results: seq<MetricResult>, ms: seq<Metric>, terminating: bool, name: string)
    requires forall k :: 0 <= k < |ms| ==> ms[k].name != name
    ensures Find(AssessAll(results, ms, terminating), name) == Find(results, name)
  {
    hide AssessOne, AssessMetric;
    if ms != [] {
      AssessAllOther(results, ms[..|ms| - 1], terminating, name);
      AssessOneFind(AssessAll(results, ms[..|ms| - 1], terminating), ms[|ms| - 1], terminating, name);
    }
  }

  lemma {:induction false} SweepFind(spec: RunSpec, results: seq<MetricResult>, gc: string -> GcOutcome, name: string)
    ensures
      var r, r' := Find(results, name), Find(Sweep(spec, results, gc), name);
      || r' == r
      || (r.Some? && r' == Some(r.value.(measurements := Trim(r.value.measurements, KeepLimit(spec, name)))))
  {
    if results != [] && !(TooLong(spec, results[0]) && gc(results[0].name).GcFailed?) {
      SweepFind(spec, results[1..], gc, name);
      assert Sweep(spec, results, gc)[1..] == Sweep(spec, results[1..], gc);
    }
  }

  /** The task a reconcile that starts in `s` has for a metric. */
  function DueIn(w: World, s: RunState, m: Metric): Option<Task> {
    TaskFor(m, Find(s.results, m.name), s.startedAt, IsTerminating(s.terminate, s.results), w.now)
  }

  /** The history of a metric after a reconcile that takes its measurement, or resumes the one in flight, if due. */
  function Remembered(history: seq<Measurement>, w: World, s: RunState, m: Metric): seq<Measurement> {
    var task := DueIn(w, s, m);
    if task == None then history
    else
      var inFlight := if task.value.resuming then LastOf(Find(s.results, m.name)) else None;
      Place(history, Taken(w.ask(m.name), inFlight), task.value.resuming)
  }

  /** Seen by one metric, a reconcile is a pass of that metric's life: it measures when a task is due, and records what
      the provider answers. */
  lemma {:induction false} AdvanceIsPass(spec: RunSpec, w: World, s: RunState, s': RunState, i: nat,
      history: seq<Measurement>)
    returns (p: Pass)
    requires ValidMetrics(spec.metrics) && HonestWorld(w) && Advances(spec, w, s, s') && i < |spec.metrics|
    ensures
      var m := spec.metrics[i];
      var l := Life(Find(s.results, m.name), history);
      && Allowed(m, l, p) && p.terminating == IsTerminating(s.terminate, MeasuredIn(spec, w, s))
      && Step(m, m.name in spec.dryRuns, l, p) == Life(Find(s'.results, m.name), Remembered(history, w, s, m))
  {
    hide TaskFor, TasksFor, TaskNamed, RunTasks, AssessAll, Sweep, AssessMetric, Find, Step, Allowed, Verdict, Honest,
      Trim, ValidMetric, Place, Taken, LastOf;
    var m := spec.metrics[i];
    var found := Find(s.results, m.name);
    var l := Life(found, history);
    var terminating := IsTerminating(s.terminate, s.results);
    var tasks := TasksFor(spec.metrics, s.results, s.startedAt, terminating, w.now);
    TasksForNamed(spec.metrics, s.results, s.startedAt, terminating, w.now, i);
    TaskForShape(m, found, s.startedAt, terminating, w.now);
    TasksDistinct(spec.metrics, s.results, s.startedAt, terminating, w.now);
    var measured := MeasuredIn(spec, w, s);
    RunTasksFind(s.results, tasks, w.ask, spec.dryRuns, m.name);
    var terminating' := IsTerminating(s.terminate, measured);
    AssessAllFind(measured, spec.metrics, terminating', i);
    SweepFind(spec, AssessedIn(spec, w, s), w.gc, m.name);
    p := PassOf(m, m.name in spec.dryRuns, l, w.ask(m.name), s.startedAt, terminating, w.now, terminating',
                Find(s'.results, m.name), KeepLimit(spec, m.name), TaskNamed(tasks, m.name), Find(measured, m.name));
    StepHistory(m, m.name in spec.dryRuns, l, p);
  }

  lemma {:induction false} StepHistory(m: Metric, dryRun: bool, l: Life, p: Pass)
    ensures Step(m, dryRun, l, p).history ==
      var inFlight := if InFlight(l.result) then LastOf(l.result) else None;
      if p.due then Place(l.history, Taken(p.answer, inFlight), InFlight(l.result)) else l.history
  {
  }

  /** The pass that led from one stored result of a metric to the next. */
  lemma {:induction false} PassOf(m: Metric, dryRun: bool, l: Life, a: Answer, startedAt: Option<int>,
      terminating: bool, now: int, terminating': bool, after: Option<MetricResult>, limit: int, task: Option<Task>,
      measured: Option<MetricResult>)
    returns (p: Pass)
    requires limit >= 1 && Honest(a)
    requires task == TaskFor(m, l.result, startedAt, terminating, now)
    requires measured ==
      if task == None then l.result else Some(Record(m.name, dryRun, l.result, task.value.resuming, a))
    requires
      var r := Reassessed(m, measured, terminating');
      after == r || (r.Some? && after == Some(r.value.(measurements := Trim(r.value.measurements, limit))))
    ensures Allowed(m, l, p) && p.due == task.Some? && p.answer == a && p.terminating == terminating'
    ensures Step(m, dryRun, l, p).result == after
  {
    TaskForShape(m, l.result, startedAt, terminating, now);
    var l1 := if task.Some? then Measure(m, dryRun, l, a) else l;
    assert l1.result == measured;
    var kept := after == Reassessed(m, measured, terminating');
    p := Pass(task.Some?, a, terminating', if kept then None else Some(limit));
  }

  /** A task resumes exactly a measurement in flight, and is never made for a metric that may not run. */
  lemma {:induction false} TaskForShape(m: Metric, r: Option<MetricResult>, startedAt: Option<int>, terminating: bool,
      now: int)
    ensures TaskFor(m, r, startedAt, terminating, now).Some? ==>
      && TaskFor(m, r, startedAt, terminating, now).value == Task(m, InFlight(r))
      && MayRun(m, r)
  {
  }

  lemma {:induction false} StartReachable(m: Metric, dryRun: bool)
    ensures Reachable(m, dryRun, Life(None, []), [])
  {
  }

  lemma {:induction false} ReachableStep(m: Metric, dryRun: bool, l: Life, passes: seq<Pass>, p: Pass)
    requires Reachable(m, dryRun, l, passes) && Allowed(m, l, p)
    ensures Reachable(m, dryRun, Step(m, dryRun, l, p), passes + [p])
  {
    hide Step, Allowed;
    var all := passes + [p];
    assert all[..|all| - 1] == passes && all[|all| - 1] == p;
    assert Reachable(m, dryRun, l, all[..|all| - 1]);
  }

  /** The reconcile gets past validation and secrets, so that its tasks run. */
  predicate Measures(spec: RunSpec, e: Event, s: RunState) {
    e.Reconciled? && !Completed(s.phase) && e.w.resolved && ValidMetrics(spec.metrics) && e.w.secrets
  }

  /** Every measurement of a metric that the first `k` events of a run took and stored, in order and untrimmed. */
  function HistoryOf(spec: RunSpec, events: seq<Event>, states: seq<RunState>, k: nat, m: Metric): seq<Measurement>
    requires k <= |events| <= |states|
  {
    if k == 0 then []
    else
      var before := HistoryOf(spec, events, states, k - 1, m);
      if !Measures(spec, events[k - 1], states[k - 1]) then before
      else Remembered(before, events[k - 1].w, states[k - 1], m)
  }

  /** In every state of every run, each metric is in a reachable state of its own life, and the history of that life is
      what the events made the controller measure. */
  lemma {:induction false} EveryMetricLives(spec: RunSpec, events: seq<Event>, states: seq<RunState>, k: nat, i: nat)
    returns (l: Life, passes: seq<Pass>)
    requires IsRun(spec, events, states) && ValidMetrics(spec.metrics) && k < |states| && i < |spec.metrics|
    ensures l.result == Find(states[k].results, spec.metrics[i].name)
    ensures l.history == HistoryOf(spec, events, states, k, spec.metrics[i])
    ensures Reachable(spec.metrics[i], spec.metrics[i].name in spec.dryRuns, l, passes)
    decreases k
  {
    hide Step, Allowed, AssessedIn, Reachable, Remembered;
    var m := spec.metrics[i];
    if k == 0 {
      StartReachable(m, m.name in spec.dryRuns);
      return Life(None, []), [];
    }
    l, passes := EveryMetricLives(spec, events, states, k - 1, i);
    var e, s := events[k - 1], states[k - 1];
    assert Happens(spec, e, s, states[k]);
    if Measures(spec, e, s) {
      var p := AdvanceIsPass(spec, e.w, s, states[k], i, l.history);
      assert l == Life(Find(s.results, m.name), l.history);
      ReachableStep(m, m.name in spec.dryRuns, l, passes, p);
      l, passes := Step(m, m.name in spec.dryRuns, l, p), passes + [p];
    }
  }

  /** Over every run, the counters of a metric are those of the measurements the run took for it, which nobody trims,
      and the stored measurements are the newest of these. */
  lemma {:induction false} RunCountersRefineHistory(spec: RunSpec, events: seq<Event>, states: seq<RunState>, k: nat,
      i: nat)
    requires IsRun(spec, events, states) && ValidMetrics(spec.metrics) && k < |states| && i < |spec.metrics|
    ensures
      var m := spec.metrics[i];
      var history, found := HistoryOf(spec, events, states, k, m), Find(states[k].results, m.name);
      && (found == None <==> history == [])
      && (found.Some? ==>
            && CountersOf(found.value) == Tally(Finished(history))
            && found.value.count + found.value.error == |Finished(history)|
            && OnlyLastInFlight(history) && SuffixOf(found.value.measurements, history))
  {
    var l, passes := EveryMetricLives(spec, events, states, k, i);
    HistoryRefinement(spec.metrics[i], spec.metrics[i].name in spec.dryRuns, l, passes);
  }

  /** Over every run, a metric with an effective count takes at most count * (error limit + 1) measurements that
      complete. */
  lemma {:induction false} RunWorkIsBounded(spec: RunSpec, events: seq<Event>, states: seq<RunState>, k: nat, i: nat)
    requires IsRun(spec, events, states) && ValidMetrics(spec.metrics) && k < |states| && i < |spec.metrics|
    requires Counted(spec.metrics[i])
    ensures
      var m := spec.metrics[i];
      var history, found := HistoryOf(spec, events, states, k, m), Find(states[k].results, m.name);
      && |Finished(history)| <= EffectiveCount(m).value * (ErrorLimit(m) + 1)
      && (found.Some? ==> found.value.count <= EffectiveCount(m).value)
  {
    hide IsRun, Reachable, ValidMetric, CountersOf, Tally, SuffixOf, OnlyLastInFlight, Find, EffectiveCount, ErrorLimit;
    var m := spec.metrics[i];
    var l, passes := EveryMetricLives(spec, events, states, k, i);
    HistoryRefinement(m, m.name in spec.dryRuns, l, passes);
    BoundedWork(m, m.name in spec.dryRuns, l, passes);
    if l.result == None {
      NonNegativeBudget(m);
    }
  }

  lemma {:induction false} NonNegativeBudget(m: Metric)
    requires ValidMetric(m) && Counted(m)
    ensures EffectiveCount(m).value * (ErrorLimit(m) + 1) >= 0
  {
  }

  /** Over every run, no limit of any metric is ever exceeded by more than one, nor two limits of one metric. */
  lemma {:induction false} RunLimitsJustExceeded(spec: RunSpec, events: seq<Event>, states: seq<RunState>, k: nat,
      i: nat)
    requires IsRun(spec, events, states) && ValidMetrics(spec.metrics) && k < |states| && i < |spec.metrics|
    ensures Find(states[k].results, spec.metrics[i].name).Some? ==>
      var m, r := spec.metrics[i], Find(states[k].results, spec.metrics[i].name).value;
      AtMostOneOver(m, r) && JustOver(m, r)
  {
    var l, passes := EveryMetricLives(spec, events, states, k, i);
    ReachableInv(spec.metrics[i], spec.metrics[i].name in spec.dryRuns, l, passes);
  }

  // ---------------------------------------------------------------------------------------------
  // The verdict

  /** Two assessments that see the same votes give the same verdict: neither the order of the metrics nor
      anything a dry-run metric measured can change it. */
  lemma {:induction false} VerdictDependsOnVotes(p: Phase, q: Phase, results: seq<MetricResult>,
      results': seq<MetricResult>, ms: seq<Metric>, ms': seq<Metric>, dryRuns: set<string>)
    requires Completed(p) && Completed(q)
    requires IsWorstVote(p, results, ms, dryRuns) && IsWorstVote(q, results', ms', dryRuns)
    requires forall m :: m in ms <==> m in ms'
    requires forall m :: m in ms && m.name !in dryRuns ==> Find(results, m.name) == Find(results', m.name)
    ensures p == q
  {
    VoteBelow(p, q, results, results', ms, ms', dryRuns);
    VoteBelow(q, p, results', results, ms', ms, dryRuns);
  }

  lemma {:induction false} VoteBelow(p: Phase, q: Phase, results: seq<MetricResult>, results': seq<MetricResult>,
      ms: seq<Metric>, ms': seq<Metric>, dryRuns: set<string>)
    requires IsWorstVote(p, results, ms, dryRuns) && IsWorstVote(q, results', ms', dryRuns)
    requires forall m :: m in ms ==> m in ms'
    requires forall m :: m in ms && m.name !in dryRuns ==> Find(results, m.name) == Find(results', m.name)
    ensures Rank(p) <= Rank(q)
  {
    if p != Successful {
      var i :| 0 <= i < |ms| && Vote(results, ms[i], dryRuns) == Some(p);
      assert ms[i] in ms;
      var j :| 0 <= j < |ms'| && ms'[j] == ms[i];
      assert Vote(results', ms'[j], dryRuns) == Some(p);
    }
  }

  // ---------------------------------------------------------------------------------------------
  // An unhealthy metric ends the run

  lemma {:induction false} FindMember(results: seq<MetricResult>, i: nat)
    requires DistinctNames(results) && i < |results|
    ensures Find(results, results[i].name) == Some(results[i])
  {
    if i > 0 {
      FindMember(results[1..], i - 1);
    }
  }

  /** The metric of this name is outside dry-run mode and measured Failed, Error or Inconclusive. */
  predicate IsUnhealthy(results: seq<MetricResult>, name: string) {
    var r := Find(results, name);
    r.Some? && !r.value.dryRun && r.value.phase in {Failed, Error, Inconclusive}
  }

  ghost predicate HasUnhealthy(results: seq<MetricResult>) {
    exists name :: IsUnhealthy(results, name)
  }

  lemma {:induction false} UnhealthyTerminates(terminate: bool, results: seq<MetricResult>)
    requires DistinctNames(results)
    ensures IsTerminating(terminate, results) <==> terminate || HasUnhealthy(results)
  {
    if i :| 0 <= i < |results| && !results[i].dryRun && Unhealthy(results[i].phase) {
      FindMember(results, i);
      assert IsUnhealthy(results, results[i].name);
    }
    if name :| IsUnhealthy(results, name) {
      var i :| 0 <= i < |results| && results[i] == Find(results, name).value;
    }
  }

  lemma {:induction false} RunTasksDistinct(results: seq<MetricResult>, tasks: seq<Task>, ask: string -> Answer,
      dryRuns: set<string>)
    requires DistinctNames(results)
    ensures DistinctNames(RunTasks(results, tasks, ask, dryRuns))
  {
    hide TaskResult;
    if tasks != [] {
      var before := RunTasks(results, tasks[..|tasks| - 1], ask, dryRuns);
      var t := tasks[|tasks| - 1];
      RunTasksDistinct(results, tasks[..|tasks| - 1], ask, dryRuns);
      PutDistinct(before, TaskResult(t, Find(before, t.metric.name), ask, dryRuns));
    }
  }

  lemma {:induction false} AssessAllDistinct(results: seq<MetricResult>, ms: seq<Metric>, terminating: bool)
    requires DistinctNames(results)
    ensures DistinctNames(AssessAll(results, ms, terminating))
  {
    if ms != [] {
      var before := AssessAll(results, ms[..|ms| - 1], terminating);
      AssessAllDistinct(results, ms[..|ms| - 1], terminating);
      var m := ms[|ms| - 1];
      var r := Find(before, m.name);
      if r.Some? {
        PutDistinct(before, r.value.(phase := AssessMetric(m, r.value, terminating)));
      }
    }
  }

  lemma {:induction false} SweepNames(spec: RunSpec, results: seq<MetricResult>, gc: string -> GcOutcome)
    ensures |Sweep(spec, results, gc)| == |results|
    ensures forall i :: 0 <= i < |results| ==> Sweep(spec, results, gc)[i].name == results[i].name
  {
    if results != [] && !(TooLong(spec, results[0]) && gc(results[0].name).GcFailed?) {
      SweepNames(spec, results[1..], gc);
    }
  }

  /** No run ever stores two results under one name. */
  lemma {:induction false} RunNamesDistinct(spec: RunSpec, events: seq<Event>, states: seq<RunState>, k: nat)
    requires IsRun(spec, events, states) && k < |states|
    ensures DistinctNames(states[k].results)
    decreases k
  {
    if k > 0 {
      RunNamesDistinct(spec, events, states, k - 1);
      var s, e := states[k - 1], events[k - 1];
      assert Happens(spec, e, s, states[k]);
      if e.Reconciled? && states[k].results != s.results {
        var terminating := IsTerminating(s.terminate, s.results);
        var tasks := TasksFor(spec.metrics, s.results, s.startedAt, terminating, e.w.now);
        RunTasksDistinct(s.results, tasks, e.w.ask, spec.dryRuns);
        var measured := MeasuredIn(spec, e.w, s);
        AssessAllDistinct(measured, spec.metrics, IsTerminating(s.terminate, measured));
        SweepNames(spec, AssessedIn(spec, e.w, s), e.w.gc);
      }
    }
  }

  lemma {:induction false} TerminatingStartsNothing(ms: seq<Metric>, results: seq<MetricResult>,
      startedAt: Option<int>, now: int)
    ensures forall t :: t in TasksFor(ms, results, startedAt, true, now) ==> t.resuming
  {
    if ms != [] {
      TerminatingStartsNothing(ms[..|ms| - 1], results, startedAt, now);
    }
  }

  /** A reconcile that meets an unhealthy metric starts no measurement and completes the run. */
  lemma {:induction false} UnhealthyReconcile(spec: RunSpec, w: World, s: RunState, s': RunState)
    requires DistinctNames(s.results) && HasUnhealthy(s.results) && Next(spec, w, s, s')
    ensures
      var tasks := TasksFor(spec.metrics, s.results, s.startedAt, IsTerminating(s.terminate, s.results), w.now);
      forall t :: t in tasks ==> t.resuming
    ensures Completed(s'.phase)
  {
    hide TaskFor, TasksFor, TaskNamed, TaskResult, RunTasks, Find, AssessedIn, ValidMetric, IsTerminating,
      DistinctNames, IsWorstVote, AllCompleted;
    UnhealthyTerminates(s.terminate, s.results);
    TerminatingStartsNothing(spec.metrics, s.results, s.startedAt, w.now);
    if !Completed(s.phase) && ValidMetrics(spec.metrics) && w.resolved && w.secrets {
      var name :| IsUnhealthy(s.results, name);
      var tasks := TasksFor(spec.metrics, s.results, s.startedAt, true, w.now);
      var measured := MeasuredIn(spec, w, s);
      TasksDistinct(spec.metrics, s.results, s.startedAt, true, w.now);
      RunTasksFind(s.results, tasks, w.ask, spec.dryRuns, name);
      NamedNone(tasks, name);
      if TaskNamed(tasks, name).Some? {
        TaskResultName(TaskNamed(tasks, name).value, Find(s.results, name), w.ask, spec.dryRuns);
      }
      assert IsUnhealthy(measured, name);
      RunTasksDistinct(s.results, tasks, w.ask, spec.dryRuns);
      UnhealthyTerminates(s.terminate, measured);
    }
  }

  /** Once a metric outside dry-run mode is Failed, Error or Inconclusive, no later reconcile starts a measurement,
      and the run is completed by the next one. */
  lemma {:induction false} UnhealthyEndsRun(spec: RunSpec, events: seq<Event>, states: seq<RunState>, k: nat, j: nat)
    requires IsRun(spec, events, states) && k <= j < |events|
    requires HasUnhealthy(states[k].results)
    ensures Completed(states[j].phase) || HasUnhealthy(states[j].results)
    ensures events[j].Reconciled? ==> Completed(states[j + 1].phase)
    ensures events[j].Reconciled? && !Completed(states[j].phase) ==>
      var s := states[j];
      var terminating := IsTerminating(s.terminate, s.results);
      forall t :: t in TasksFor(spec.metrics, s.results, s.startedAt, terminating, events[j].w.now) ==> t.resuming
    decreases j
  {
    if k < j {
      UnhealthyEndsRun(spec, events, states, k, j - 1);
      assert Happens(spec, events[j - 1], states[j - 1], states[j]);
    }
    assert Happens(spec, events[j], states[j], states[j + 1]);
    RunNamesDistinct(spec, events, states, j);
    if events[j].Reconciled? && !Completed(states[j].phase) {
      UnhealthyReconcile(spec, events[j].w, states[j], states[j + 1]);
    }
  }
}
