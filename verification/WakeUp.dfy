/** When a run is looked at again: the wake-up time agrees with what scheduling does before and after it. */
module WakeUp {
  import opened Prelude
  import opened AnalysisTypes
  import opened MetricLife
  import opened AnalysisRuns
  import opened AnalysisRunProperties

  /** The time metric `m` waits for, if it waits for one. */
  function WaitsFor(m: Metric, r: Option<MetricResult>, startedAt: Option<int>, now: int): Option<int> {
    var last := LastOf(r);
    if r.Some? && Completed(r.value.phase) then None
    else if last == None then
      if m.initialDelay == None then None else Some(ValueOr(startedAt, now) + m.initialDelay.value)
    else if last.value.finishedAt == None then last.value.resumeAt
    else if CountReached(m, r.value) then None
    else if last.value.phase == Error then Some(last.value.finishedAt.value + ERROR_RETRY_INTERVAL)
    else if m.interval.Some? then Some(last.value.finishedAt.value + m.interval.value)
    else None
  }

  /** The earliest time some metric waits for: nothing exactly when no metric waits. */
  method CalculateNextReconcileTime(ms: seq<Metric>, results: seq<MetricResult>, startedAt: Option<int>, now: int)
    returns (time: Option<int>)
    ensures IsEarliest(time, ms, results, startedAt, now)
  {
    time := None;
    for i := 0 to |ms|
      invariant IsEarliest(time, ms[..i], results, startedAt, now)
    {
      hide WaitsFor;
      var waits := WaitsFor(ms[i], Find(results, ms[i].name), startedAt, now);
      EarliestStep(time, ms[..i + 1], results, startedAt, now) by {
        assert ms[..i + 1][..i] == ms[..i];
      }
      if waits.Some? && (time == None || time.value > waits.value) {
        time := waits;
      }
    }
    assert ms[..|ms|] == ms;
  }

  ghost predicate IsEarliest(time: Option<int>, ms: seq<Metric>, results: seq<MetricResult>, startedAt: Option<int>,
      now: int)
  {
    && (time.Some? ==> exists i :: 0 <= i < |ms| && WaitsFor(ms[i], Find(results, ms[i].name), startedAt, now) == time)
    && forall i :: 0 <= i < |ms| && WaitsFor(ms[i], Find(results, ms[i].name), startedAt, now).Some? ==>
         time.Some? && time.value <= WaitsFor(ms[i], Find(results, ms[i].name), startedAt, now).value
  }

  lemma {:induction false} EarliestStep(time: Option<int>, ms: seq<Metric>, results: seq<MetricResult>,
      startedAt: Option<int>, now: int)
    requires ms != [] && IsEarliest(time, ms[..|ms| - 1], results, startedAt, now)
    ensures
      var waits := WaitsFor(ms[|ms| - 1], Find(results, ms[|ms| - 1].name), startedAt, now);
      var time' := if waits.Some? && (time == None || time.value > waits.value) then waits else time;
      IsEarliest(time', ms, results, startedAt, now)
  {
    hide WaitsFor, Find;
    var head := ms[..|ms| - 1];
    if time.Some? {
      var i :| 0 <= i < |head| && WaitsFor(head[i], Find(results, head[i].name), startedAt, now) == time;
      assert ms[i] == head[i];
    }
    assert forall i :: 0 <= i < |head| ==> head[i] == ms[i];
  }

  // ---------------------------------------------------------------------------------------------
  // After the wake-up time

  lemma {:induction false} DueAfterWait(m: Metric, r: Option<MetricResult>, startedAt: Option<int>, asked: int,
      now: int)
    requires startedAt.Some?
    requires WaitsFor(m, r, startedAt, asked).Some? && now > WaitsFor(m, r, startedAt, asked).value
    ensures TaskFor(m, r, startedAt, false, now).Some?
  {
  }

  /** At every moment after the wake-up time, a metric that waited for it has a task. */
  lemma {:induction false} WokenUpForWork(ms: seq<Metric>, results: seq<MetricResult>, startedAt: Option<int>,
      terminate: bool, asked: int, time: Option<int>, now: int)
    requires DistinctMetrics(ms) && startedAt.Some? && !IsTerminating(terminate, results)
    requires IsEarliest(time, ms, results, startedAt, asked) && time.Some? && now > time.value
    ensures exists i ::
      && 0 <= i < |ms|
      && WaitsFor(ms[i], Find(results, ms[i].name), startedAt, asked) == time
      && TaskNamed(TasksFor(ms, results, startedAt, IsTerminating(terminate, results), now), ms[i].name).Some?
  {
    hide WaitsFor, TaskFor, TasksFor, Find, TaskNamed, IsTerminating;
    var i :| 0 <= i < |ms| && WaitsFor(ms[i], Find(results, ms[i].name), startedAt, asked) == time;
    DueAfterWait(ms[i], Find(results, ms[i].name), startedAt, asked, now);
    TasksForNamed(ms, results, startedAt, false, now, i);
  }

  // ---------------------------------------------------------------------------------------------
  // Before the wake-up time

  /** A measurement in flight that named no time to come back: it is resumed by every reconcile. */
  predicate Polled(r: Option<MetricResult>) {
    r.Some? && !Completed(r.value.phase) && InFlight(r) && LastOf(r).value.resumeAt == None
  }

  /** A metric that needs nothing more, or whose wait the wake-up time takes into account. */
  predicate Settled(m: Metric, r: Option<MetricResult>, startedAt: Option<int>, now: int) {
    || (r.Some? && Completed(r.value.phase))
    || (LastOf(r).Some? && LastOf(r).value.finishedAt.Some? && CountReached(m, r.value))
    || WaitsFor(m, r, startedAt, now).Some?
  }

  predicate Before(now: int, time: Option<int>) {
    time.Some? ==> now < time.value
  }

  lemma {:induction false} NothingDueYet(m: Metric, r: Option<MetricResult>, startedAt: Option<int>, asked: int,
      time: Option<int>, now: int)
    requires startedAt.Some? && Settled(m, r, startedAt, asked) && Before(now, time)
    requires WaitsFor(m, r, startedAt, asked).Some? ==>
      time.Some? && time.value <= WaitsFor(m, r, startedAt, asked).value
    ensures TaskFor(m, r, startedAt, false, now) == None
  {
  }

  lemma {:induction false} NoTasks(ms: seq<Metric>, results: seq<MetricResult>, startedAt: Option<int>, now: int)
    requires forall i :: 0 <= i < |ms| ==> TaskFor(ms[i], Find(results, ms[i].name), startedAt, false, now) == None
    ensures TasksFor(ms, results, startedAt, false, now) == []
  {
    hide TaskFor, Find;
    if ms != [] {
      NoTasks(ms[..|ms| - 1], results, startedAt, now);
    }
  }

  /** When every metric is settled, no task is due at any moment before the wake-up time. */
  lemma {:induction false} QuietUntilWakeUp(ms: seq<Metric>, results: seq<MetricResult>, startedAt: Option<int>,
      terminate: bool, asked: int, time: Option<int>, now: int)
    requires startedAt.Some? && !IsTerminating(terminate, results)
    requires IsEarliest(time, ms, results, startedAt, asked) && Before(now, time)
    requires forall i :: 0 <= i < |ms| ==> Settled(ms[i], Find(results, ms[i].name), startedAt, asked)
    ensures TasksFor(ms, results, startedAt, IsTerminating(terminate, results), now) == []
  {
    hide WaitsFor, TaskFor, TasksFor, Find, IsTerminating, Settled;
    forall i | 0 <= i < |ms|
      ensures TaskFor(ms[i], Find(results, ms[i].name), startedAt, false, now) == None
    {
      NothingDueYet(ms[i], Find(results, ms[i].name), startedAt, asked, time, now);
    }
    NoTasks(ms, results, startedAt, now);
  }

  // ---------------------------------------------------------------------------------------------
  // Over whole runs

  /** A valid metric whose last measurement finished without an error has reached its count or has an interval. */
  lemma {:induction false} FinishedMetricRepeats(m: Metric, dryRun: bool, l: Life, passes: seq<Pass>)
    requires ValidMetric(m) && Reachable(m, dryRun, l, passes)
    requires LastOf(l.result).Some? && LastOf(l.result).value.finishedAt.Some? && LastOf(l.result).value.phase != Error
    ensures CountReached(m, l.result.value) || m.interval.Some?
  {
    HistoryRefinement(m, dryRun, l, passes);
    var h := l.history;
    assert h[|h| - 1] == LastOf(l.result).value;
    LastCounts(h);
  }

  lemma {:induction false} LastCounts(h: seq<Measurement>)
    requires h != [] && Completed(h[|h| - 1].phase) && h[|h| - 1].phase != Error
    ensures Finished(h) == h && Tally(h).count >= 1
  {
  }

  /** In a run that goes on after a reconcile, every metric is settled unless it is polled: the two places where the
      source expects never to arrive are never reached. */
  lemma {:induction false} EveryMetricIsSettled(spec: RunSpec, events: seq<Event>, states: seq<RunState>, k: nat,
      i: nat, now: int)
    requires IsRun(spec, events, states) && ValidMetrics(spec.metrics) && k < |events| && i < |spec.metrics|
    requires events[k].Reconciled? && !Completed(states[k + 1].phase)
    ensures
      var m, r := spec.metrics[i], Find(states[k + 1].results, spec.metrics[i].name);
      Settled(m, r, states[k + 1].startedAt, now) != Polled(r)
  {
    var m, r := spec.metrics[i], Find(states[k + 1].results, spec.metrics[i].name);
    hide IsRun, Find, CountReached, ValidMetric, EffectiveCount, Reachable;
    MeasuredOrDelayed(spec, events, states, k, i);
    var l, passes := EveryMetricLives(spec, events, states, k + 1, i);
    assert ValidMetric(m);
    if LastOf(r).Some? && LastOf(r).value.finishedAt.Some? && LastOf(r).value.phase != Error {
      FinishedMetricRepeats(m, m.name in spec.dryRuns, l, passes);
    }
  }

  lemma {:induction false} MeasuredOrDelayed(spec: RunSpec, events: seq<Event>, states: seq<RunState>, k: nat, i: nat)
    requires IsRun(spec, events, states) && ValidMetrics(spec.metrics) && k < |events| && i < |spec.metrics|
    requires events[k].Reconciled? && !Completed(states[k + 1].phase)
    ensures spec.metrics[i].initialDelay.Some? || LastOf(Find(states[k + 1].results, spec.metrics[i].name)).Some?
    ensures states[k + 1].startedAt.Some?
  {
    hide Find, ValidMetric, Reachable, AssessedIn, MeasuredIn, TasksFor, IsTerminating, DistinctNames, HasUnhealthy,
      Verdict;
    var s, s', w, m := states[k], states[k + 1], events[k].w, spec.metrics[i];
    assert Happens(spec, events[k], s, s');
    RunNamesDistinct(spec, events, states, k);
    UnhealthyTerminates(s.terminate, s.results);
    if IsTerminating(s.terminate, s.results) {
      TerminatingCompletes(spec, w, s, s');
    }
    var l, passes := EveryMetricLives(spec, events, states, k, i);
    var p := AdvanceIsPass(spec, w, s, s', i, l.history);
    FirstTaskRuns(spec, w, s, s', i);
    var l', passes' := EveryMetricLives(spec, events, states, k + 1, i);
    HistoryRefinement(m, m.name in spec.dryRuns, l', passes');
  }

  lemma {:induction false} TerminatingCompletes(spec: RunSpec, w: World, s: RunState, s': RunState)
    requires DistinctNames(s.results) && IsTerminating(s.terminate, s.results) && Next(spec, w, s, s')
    ensures Completed(s'.phase)
  {
    hide DistinctNames, AssessedIn, MeasuredIn;
    if s.terminate {
      assert forall results :: IsTerminating(true, results);
    } else {
      UnhealthyTerminates(false, s.results);
      UnhealthyReconcile(spec, w, s, s');
    }
  }

  /** The first reconcile of a run that is not terminating measures every metric without an initial delay. */
  lemma {:induction false} FirstTaskRuns(spec: RunSpec, w: World, s: RunState, s': RunState, i: nat)
    requires ValidMetrics(spec.metrics) && Advances(spec, w, s, s') && i < |spec.metrics|
    requires !IsTerminating(s.terminate, s.results)
    ensures spec.metrics[i].initialDelay.Some? || Find(s'.results, spec.metrics[i].name).Some?
  {
    hide Find, ValidMetric, TasksFor, TaskNamed, TaskResult, Record, RunTasks, AssessAll, Sweep, IsTerminating, Verdict;
    var m := spec.metrics[i];
    var tasks := TasksFor(spec.metrics, s.results, s.startedAt, false, w.now);
    TasksForNamed(spec.metrics, s.results, s.startedAt, false, w.now, i);
    TasksDistinct(spec.metrics, s.results, s.startedAt, false, w.now);
    RunTasksFind(s.results, tasks, w.ask, spec.dryRuns, m.name);
    var measured := MeasuredIn(spec, w, s);
    AssessAllFind(measured, spec.metrics, IsTerminating(s.terminate, measured), i);
    SweepFind(spec, AssessedIn(spec, w, s), w.gc, m.name);
  }

  lemma {:induction false} PolledIsDue(m: Metric, r: Option<MetricResult>, startedAt: Option<int>, now: int)
    requires Polled(r)
    ensures TaskFor(m, r, startedAt, false, now).Some?
  {
  }

  /** After a reconcile that left the run going, the run may sleep until the wake-up time exactly when no measurement
      in flight waits to be polled: then, and only then, no task is due at any earlier moment. */
  lemma {:induction false} SleepIsSafe(spec: RunSpec, events: seq<Event>, states: seq<RunState>, k: nat, asked: int,
      time: Option<int>)
    requires IsRun(spec, events, states) && ValidMetrics(spec.metrics) && k < |events|
    requires events[k].Reconciled? && !Completed(states[k + 1].phase)
    requires !IsTerminating(states[k + 1].terminate, states[k + 1].results)
    requires IsEarliest(time, spec.metrics, states[k + 1].results, states[k + 1].startedAt, asked)
    ensures
      var s := states[k + 1];
      (forall now :: Before(now, time) ==>
         TasksFor(spec.metrics, s.results, s.startedAt, IsTerminating(s.terminate, s.results), now) == [])
      <==> (forall i :: 0 <= i < |spec.metrics| ==> !Polled(Find(s.results, spec.metrics[i].name)))
  {
    var s := states[k + 1];
    hide IsRun, Find, ValidMetric, TaskFor, TasksFor, Settled, Polled, IsEarliest, IsTerminating;
    MeasuredOrDelayed(spec, events, states, k, 0);
    forall i | 0 <= i < |spec.metrics|
      ensures Settled(spec.metrics[i], Find(s.results, spec.metrics[i].name), s.startedAt, asked)
           != Polled(Find(s.results, spec.metrics[i].name))
    {
      EveryMetricIsSettled(spec, events, states, k, i, asked);
    }
    if i :| 0 <= i < |spec.metrics| && Polled(Find(s.results, spec.metrics[i].name)) {
      var now := if time.Some? then time.value - 1 else 0;
      PolledIsDue(spec.metrics[i], Find(s.results, spec.metrics[i].name), s.startedAt, now);
      TasksForNamed(spec.metrics, s.results, s.startedAt, false, now, i);
      assert TaskNamed([], spec.metrics[i].name) == None;
      assert Before(now, time);
    } else {
      forall now | Before(now, time)
        ensures TasksFor(spec.metrics, s.results, s.startedAt, false, now) == []
      {
        QuietUntilWakeUp(spec.metrics, s.results, s.startedAt, s.terminate, asked, time, now);
      }
    }
  }

  const POLLED := Metric("m", None, None, None, None, None, None, None)

  /** The provider started a measurement, and named no time to resume it at. */
  const STARTED := Measurement(Running, "", None, None)

  /** The result stored for that measurement. */
  const POLLED_RESULT := Fresh("m", false).(measurements := [STARTED])

  lemma {:induction false} OneTask(m: Metric, results: seq<MetricResult>, startedAt: Option<int>, now: int)
    ensures TasksFor([m], results, startedAt, false, now) ==
      AsSeq(TaskFor(m, Find(results, m.name), startedAt, false, now))
  {
    assert TasksFor([m][..0], results, startedAt, false, now) == [];
  }

  lemma {:induction false} OneResult(t: Task, ask: string -> Answer)
    ensures RunTasks([], [t], ask, {}) == [TaskResult(t, None, ask, {})]
  {
    assert [t][..0] == [] && RunTasks([], [], ask, {}) == [];
  }

  lemma {:induction false} FirstResult(ask: string -> Answer)
    requires ask("m") == Measured(0, STARTED)
    ensures TaskResult(Task(POLLED, false), None, ask, {}) == POLLED_RESULT
  {
  }

  lemma {:induction false} StillRunning(m: Metric, r: MetricResult)
    requires r.name == m.name && r.phase == Running && AssessMetric(m, r, false) == Running
    ensures AssessAll([r], [m], false) == [r]
  {
    assert AssessAll([r], [m][..0], false) == [r];
  }

  lemma {:induction false} FirstTask()
    ensures TasksFor([POLLED], [], None, false, 0) == [Task(POLLED, false)]
  {
    OneTask(POLLED, [], None, 0);
  }

  lemma {:induction false} FirstMeasured(spec: RunSpec, w: World)
    requires spec == RunSpec([POLLED], {}, map[]) && w.now == 0 && w.ask("m") == Measured(0, STARTED)
    ensures MeasuredIn(spec, w, INITIAL_RUN) == [POLLED_RESULT]
  {
    hide TasksFor, RunTasks, TaskResult;
    FirstTask();
    OneResult(Task(POLLED, false), w.ask);
    FirstResult(w.ask);
  }

  lemma {:induction false} FirstReconcile(spec: RunSpec, w: World, s: RunState)
    requires spec == RunSpec([POLLED], {}, map[]) && w.now == 0 && w.ask("m") == Measured(0, STARTED)
    requires s == RunState([POLLED_RESULT], Running, Some(0), None, false)
    ensures Advances(spec, w, INITIAL_RUN, s)
  {
    hide MeasuredIn, AssessAll;
    FirstMeasured(spec, w);
    StillRunning(POLLED, POLLED_RESULT);
    assert !IsTerminating(false, [POLLED_RESULT]);
    assert AssessedIn(spec, w, INITIAL_RUN) == [POLLED_RESULT];
    assert !HasCompleted([POLLED_RESULT], spec.metrics[0]);
    assert Sweep(spec, [POLLED_RESULT], w.gc) == [POLLED_RESULT];
  }

  /** One metric whose provider only started its measurement: the run goes on without a wake-up time, and the metric has
      a task at every moment. */
  lemma {:induction false} PolledRunHasNoWakeUp() returns (spec: RunSpec, events: seq<Event>, states: seq<RunState>)
    ensures IsRun(spec, events, states) && ValidMetrics(spec.metrics) && |events| == 1
    ensures events[0].Reconciled? && states[1].phase == Running
    ensures forall asked :: IsEarliest(None, spec.metrics, states[1].results, states[1].startedAt, asked)
    ensures forall now ::
      TasksFor(spec.metrics, states[1].results, states[1].startedAt, false, now) == [Task(POLLED, true)]
  {
    hide Advances;
    var w := World(0, true, true, name => Measured(0, STARTED), name => Trimmed);
    spec := RunSpec([POLLED], {}, map[]);
    var s := RunState([POLLED_RESULT], Running, Some(0), None, false);
    FirstReconcile(spec, w, s);
    events, states := [Reconciled(w)], [INITIAL_RUN, s];
    forall now: int
      ensures TasksFor(spec.metrics, s.results, s.startedAt, false, now) == [Task(POLLED, true)]
    {
      OneTask(POLLED, s.results, s.startedAt, now);
    }
  }
}
