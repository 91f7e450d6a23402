/** What an AnalysisRun does and ends with, told from its specification, its clock and the answers of its providers. */
module AnalysisRunOutcomes {
  import opened Prelude
  import opened AnalysisTypes
  import opened MetricLife
  import opened MetricOutcomes
  import opened AnalysisRuns
  import opened AnalysisRunProperties

  // ---------------------------------------------------------------------------------------------
  // When a measurement is taken

  /** The newest measurement kept for a metric. */
  function Newest(r: Option<MetricResult>): Option<Measurement> {
    if r == None || r.value.measurements == [] then None else Some(r.value.measurements[|r.value.measurements| - 1])
  }

  /** A metric that is completed has no task. One in flight is resumed when the run is terminating, or when the time it
      named has come or it named none. Nothing new is measured while the run is terminating; otherwise the first
      measurement waits for the initial delay since the run started, and a further one for the interval since the last
      finished, 10 seconds after an error or without an interval, and is taken only below the count. */
  lemma {:induction false} TaskIsDueWhen(m: Metric, r: Option<MetricResult>, startedAt: Option<int>, terminating: bool,
      now: int)
    requires r.Some? ==> r.value.phase !in {Successful, Failed, Error, Inconclusive}
    ensures Newest(r) == None ==>
      TaskFor(m, r, startedAt, terminating, now) ==
        if && !terminating
           && (m.initialDelay == None || (startedAt.Some? && now >= startedAt.value + m.initialDelay.value))
        then Some(Task(m, false)) else None
    ensures Newest(r).Some? && Newest(r).value.finishedAt == None ==>
      TaskFor(m, r, startedAt, terminating, now) ==
        if terminating || Newest(r).value.resumeAt == None || now >= Newest(r).value.resumeAt.value
        then Some(Task(m, true)) else None
    ensures Newest(r).Some? && Newest(r).value.finishedAt.Some? ==>
      var wait := if Newest(r).value.phase != Error && m.interval.Some? then m.interval.value else 10;
      var count := LimitsOf(m).count;
      TaskFor(m, r, startedAt, terminating, now) ==
        if && !terminating && !(count.Some? && r.value.count >= count.value)
           && now > Newest(r).value.finishedAt.value + wait
        then Some(Task(m, false)) else None
  {
  }

  lemma {:induction false} CompletedIsNeverDue(m: Metric, r: MetricResult, startedAt: Option<int>, terminating: bool,
      now: int)
    requires r.phase in {Successful, Failed, Error, Inconclusive}
    ensures TaskFor(m, Some(r), startedAt, terminating, now) == None
  {
  }

  // ---------------------------------------------------------------------------------------------
  // What a run is told to do with its specification

  /** The limits of a metric go together: the counts leave room for what the limits ask for. */
  predicate WellFormed(m: Metric) {
    var l := LimitsOf(m);
    && l.success >= 0 && l.failure >= -1 && (l.success > 0 || l.failure >= 0)
    && l.inconclusive >= 0 && l.error >= 0
    && (m.count.Some? && m.count.value > 0 ==>
          && m.count.value >= l.success + (if l.failure > 0 then l.failure else 0)
          && m.count.value >= l.inconclusive
          && (m.count.value == 1 || m.interval.Some?))
  }

  lemma {:induction false} ValidIsWellFormed(m: Metric)
    ensures ValidMetric(m) <==> WellFormed(m)
  {
  }

  /** A reconcile that meets unresolved arguments, a specification that is not well-formed or a secret it cannot read
      ends the run in Error, and keeps everything else; every other one measures. */
  lemma {:induction false} RunIsRejectedWhen(spec: RunSpec, w: World, s: RunState, s': RunState)
    requires s.phase !in {Successful, Failed, Error, Inconclusive} && Next(spec, w, s, s')
    ensures
      var sound := && spec.metrics != [] && (forall i :: 0 <= i < |spec.metrics| ==> WellFormed(spec.metrics[i]))
                   && forall i, j :: 0 <= i < j < |spec.metrics| ==> spec.metrics[i].name != spec.metrics[j].name;
      if w.resolved && w.secrets && sound then Advances(spec, w, s, s') else s' == s.(phase := Error)
  {
    hide ValidMetric, WellFormed, Advances;
    forall i | 0 <= i < |spec.metrics|
      ensures ValidMetric(spec.metrics[i]) <==> WellFormed(spec.metrics[i])
    {
      ValidIsWellFormed(spec.metrics[i]);
    }
  }

  /** A completed run is left alone. */
  lemma {:induction false} CompletedRunStays(spec: RunSpec, w: World, s: RunState, s': RunState)
    requires s.phase in {Successful, Failed, Error, Inconclusive} && Next(spec, w, s, s')
    ensures s' == s
  {
  }

  // ---------------------------------------------------------------------------------------------
  // The verdict

  /** A metric outside dry-run mode ended in phase `p`. */
  ghost predicate Ended(results: seq<MetricResult>, spec: RunSpec, p: Phase) {
    exists i :: 0 <= i < |spec.metrics| && spec.metrics[i].name !in spec.dryRuns && EndedIn(results, spec.metrics[i], p)
  }

  predicate EndedIn(results: seq<MetricResult>, m: Metric, p: Phase) {
    Find(results, m.name).Some? && Find(results, m.name).value.phase == p
  }

  /** Failed outweighs Error, which outweighs Inconclusive, which outweighs Successful. */
  ghost predicate IsVerdict(p: Phase, results: seq<MetricResult>, spec: RunSpec) {
    && (p == Failed <==> Ended(results, spec, Failed))
    && (p == Error <==> !Ended(results, spec, Failed) && Ended(results, spec, Error))
    && (p == Inconclusive <==>
          && !Ended(results, spec, Failed) && !Ended(results, spec, Error) && Ended(results, spec, Inconclusive))
    && (p !in {Failed, Error, Inconclusive} ==> p == Successful)
  }

  lemma {:induction false} WorstVoteIsVerdict(p: Phase, results: seq<MetricResult>, spec: RunSpec)
    requires IsWorstVote(p, results, spec.metrics, spec.dryRuns)
    requires Completed(p)
    ensures IsVerdict(p, results, spec)
  {
    EndedVotes(p, results, spec, Failed);
    EndedVotes(p, results, spec, Error);
    EndedVotes(p, results, spec, Inconclusive);
  }

  lemma {:induction false} EndedVotes(p: Phase, results: seq<MetricResult>, spec: RunSpec, q: Phase)
    requires IsWorstVote(p, results, spec.metrics, spec.dryRuns) && Completed(q)
    ensures Ended(results, spec, q) ==> Rank(q) <= Rank(p)
    ensures p == q && q != Successful ==> Ended(results, spec, q)
  {
    if Ended(results, spec, q) {
      var i :| 0 <= i < |spec.metrics| && spec.metrics[i].name !in spec.dryRuns && EndedIn(results, spec.metrics[i], q);
      assert Vote(results, spec.metrics[i], spec.dryRuns) == Some(q);
    }
    if p == q && q != Successful {
      var i :| 0 <= i < |spec.metrics| && Vote(results, spec.metrics[i], spec.dryRuns) == Some(p);
      assert EndedIn(results, spec.metrics[i], q);
    }
  }

  /** Some reconcile before found, or a user asked, that the run is over. */
  ghost predicate IsOver(s: RunState) {
    s.terminate || HasUnhealthy(s.results)
  }

  /** Measuring turns no metric unhealthy: whether the run is terminating is decided by the reconciles before. */
  lemma {:induction false} MeasuringKeepsTermination(spec: RunSpec, w: World, s: RunState)
    requires ValidMetrics(spec.metrics) && DistinctNames(s.results)
    ensures IsTerminating(s.terminate, s.results) == IsOver(s)
    ensures IsTerminating(s.terminate, MeasuredIn(spec, w, s)) == IsOver(s)
  {
    hide TaskFor, TasksFor, TaskNamed, TaskResult, RunTasks, Find, ValidMetric, IsTerminating, DistinctNames;
    UnhealthyTerminates(s.terminate, s.results);
    var terminating := IsTerminating(s.terminate, s.results);
    var tasks, measured := TasksFor(spec.metrics, s.results, s.startedAt, terminating, w.now), MeasuredIn(spec, w, s);
    TasksDistinct(spec.metrics, s.results, s.startedAt, terminating, w.now);
    RunTasksDistinct(s.results, tasks, w.ask, spec.dryRuns);
    UnhealthyTerminates(s.terminate, measured);
    forall name
      ensures IsUnhealthy(measured, name) == IsUnhealthy(s.results, name)
    {
      RunTasksFind(s.results, tasks, w.ask, spec.dryRuns, name);
      NamedNone(tasks, name);
      if TaskNamed(tasks, name).Some? {
        TaskResultName(TaskNamed(tasks, name).value, Find(s.results, name), w.ask, spec.dryRuns);
      }
    }
  }

  /** Over every run, a reconcile that measures gives each metric still open the phase that the measurements the run
      took for it have earned by then. */
  lemma {:induction false} RunPhaseIsEarned(spec: RunSpec, events: seq<Event>, states: seq<RunState>, k: nat, i: nat)
    requires IsRun(spec, events, states) && ValidMetrics(spec.metrics) && k < |events| && i < |spec.metrics|
    requires Measures(spec, events[k], states[k])
    requires
      var found := Find(states[k].results, spec.metrics[i].name);
      found.Some? ==> found.value.phase !in {Successful, Failed, Error, Inconclusive}
    ensures
      var m := spec.metrics[i];
      var found := Find(states[k + 1].results, m.name);
      found.Some? ==>
        found.value.phase == Earned(HistoryOf(spec, events, states, k + 1, m), LimitsOf(m), IsOver(states[k]))
  {
    hide Reachable, Earned, LimitsOf, Find, Step, Allowed, ValidMetric, IsTerminating, MeasuredIn, Remembered, IsOver,
      AssessedIn;
    var m, e, s := spec.metrics[i], events[k], states[k];
    assert Happens(spec, e, s, states[k + 1]);
    RunNamesDistinct(spec, events, states, k);
    MeasuringKeepsTermination(spec, e.w, s);
    var l, passes := EveryMetricLives(spec, events, states, k, i);
    assert l == Life(Find(s.results, m.name), l.history);
    var p := AdvanceIsPass(spec, e.w, s, states[k + 1], i, l.history);
    assert ValidMetric(m);
    if Find(states[k + 1].results, m.name).Some? {
      PhaseIsEarned(m, m.name in spec.dryRuns, l, passes, p);
    }
  }

  /** Over every run, a reconcile that measures completes the run exactly when it was over before or every metric is
      completed now, and then with the worst phase of the metrics outside dry-run mode; the end is recorded. */
  lemma {:induction false} RunVerdict(spec: RunSpec, events: seq<Event>, states: seq<RunState>, k: nat)
    requires IsRun(spec, events, states) && k < |events| && Measures(spec, events[k], states[k])
    ensures
      var s, s', now := states[k], states[k + 1], events[k].w.now;
      && (s'.phase in {Successful, Failed, Error, Inconclusive} <==> IsOver(s) || AllEnded(s'.results, spec))
      && (s'.phase in {Successful, Failed, Error, Inconclusive} ==> IsVerdict(s'.phase, s'.results, spec))
      && (s'.phase !in {Successful, Failed, Error, Inconclusive} ==> s'.phase == Running)
      && s'.startedAt == Some(if s.startedAt.Some? then s.startedAt.value else now)
      && s'.terminate == s.terminate && (s.completedAt.Some? ==> s'.completedAt == s.completedAt)
      && (s.completedAt == None ==>
            s'.completedAt == if s'.phase in {Successful, Failed, Error, Inconclusive} then Some(now) else None)
  {
    hide Find, ValidMetric, IsTerminating, MeasuredIn, IsWorstVote, IsVerdict, AssessAll, Sweep, DistinctNames;
    var e, s, s' := events[k], states[k], states[k + 1];
    assert Happens(spec, e, s, s');
    RunNamesDistinct(spec, events, states, k);
    MeasuringKeepsTermination(spec, e.w, s);
    var assessed := AssessedIn(spec, e.w, s);
    SweepKeepsPhases(spec, assessed, e.w.gc);
    AllEndedNow(assessed, s'.results, spec);
    if Completed(s'.phase) {
      WorstVoteIsVerdict(s'.phase, assessed, spec);
      SamePhasesSameVerdict(s'.phase, assessed, s'.results, spec);
    }
  }

  ghost predicate AllEnded(results: seq<MetricResult>, spec: RunSpec) {
    forall i :: 0 <= i < |spec.metrics| ==>
      && Find(results, spec.metrics[i].name).Some?
      && Find(results, spec.metrics[i].name).value.phase in {Successful, Failed, Error, Inconclusive}
  }

  lemma {:induction false} AllEndedNow(results: seq<MetricResult>, results': seq<MetricResult>, spec: RunSpec)
    requires forall name :: PhaseOf(results', name) == PhaseOf(results, name)
    ensures AllCompleted(results, spec.metrics) <==> AllEnded(results', spec)
  {
    hide Find;
    forall i | 0 <= i < |spec.metrics|
      ensures PhaseOf(results', spec.metrics[i].name) == PhaseOf(results, spec.metrics[i].name)
    {
    }
  }

  function PhaseOf(results: seq<MetricResult>, name: string): Option<Phase> {
    if Find(results, name).Some? then Some(Find(results, name).value.phase) else None
  }

  lemma {:induction false} SweepKeepsPhases(spec: RunSpec, results: seq<MetricResult>, gc: string -> GcOutcome)
    ensures forall name :: PhaseOf(Sweep(spec, results, gc), name) == PhaseOf(results, name)
  {
    hide Find, Sweep, Trim;
    forall name
      ensures PhaseOf(Sweep(spec, results, gc), name) == PhaseOf(results, name)
    {
      SweepFind(spec, results, gc, name);
    }
  }

  lemma {:induction false} SamePhasesSameVerdict(p: Phase, results: seq<MetricResult>, results': seq<MetricResult>,
      spec: RunSpec)
    requires forall name :: PhaseOf(results', name) == PhaseOf(results, name)
    requires IsVerdict(p, results, spec)
    ensures IsVerdict(p, results', spec)
  {
    hide Find;
    forall q
      ensures Ended(results', spec, q) == Ended(results, spec, q)
    {
      forall i | 0 <= i < |spec.metrics|
        ensures EndedIn(results', spec.metrics[i], q) == EndedIn(results, spec.metrics[i], q)
      {
        assert PhaseOf(results', spec.metrics[i].name) == PhaseOf(results, spec.metrics[i].name);
      }
    }
  }

  // ---------------------------------------------------------------------------------------------
  // Retention

  /** How many measurements of a metric are kept: as many as asked for, 10 without a rule. */
  function Retained(spec: RunSpec, name: string): int {
    if name in spec.retention && spec.retention[name] > 0 then spec.retention[name] else 10
  }

  /** `r'` is `r` with the newest of its measurements, as many as are retained. */
  predicate KeepsNewest(spec: RunSpec, r: MetricResult, r': MetricResult) {
    var all, kept := r.measurements, r'.measurements;
    r' == r.(measurements := kept) && |kept| == Min(|all|, Retained(spec, r.name)) && kept == all[|all| - |kept|..]
  }

  lemma {:induction false} SweptKeepsNewest(spec: RunSpec, r: MetricResult, gc: string -> GcOutcome)
    requires Known(spec.metrics, r.name) && gc(r.name) == Trimmed
    ensures KeepsNewest(spec, r, Swept(spec, r, gc))
  {
  }

  /** When no provider fails or is missing, collecting leaves each metric the newest of its measurements. */
  lemma {:induction false} CollectionKeepsNewest(spec: RunSpec, results: seq<MetricResult>, gc: string -> GcOutcome,
      i: nat)
    requires i < |spec.metrics| && forall name :: gc(name) == Trimmed
    ensures
      var r, r' := Find(results, spec.metrics[i].name), Find(Sweep(spec, results, gc), spec.metrics[i].name);
      (r == None <==> r' == None) && (r.Some? ==> KeepsNewest(spec, r.value, r'.value))
  {
    hide Swept, TooLong, KeepsNewest;
    if results != [] {
      assert Known(spec.metrics, spec.metrics[i].name);
      assert Sweep(spec, results, gc) == [Swept(spec, results[0], gc)] + Sweep(spec, results[1..], gc);
      CollectionKeepsNewest(spec, results[1..], gc, i);
      assert Sweep(spec, results, gc)[1..] == Sweep(spec, results[1..], gc);
      SweptName(spec, results[0], gc);
      if results[0].name == spec.metrics[i].name {
        SweptKeepsNewest(spec, results[0], gc);
      }
    }
  }

  lemma {:induction false} SweptName(spec: RunSpec, r: MetricResult, gc: string -> GcOutcome)
    ensures Swept(spec, r, gc).name == r.name
  {
  }

  /** A result that asks its provider to collect: it is longer than retained, and its metric is known. */
  predicate AsksToCollect(spec: RunSpec, r: MetricResult) {
    Retained(spec, r.name) < |r.measurements| && exists k :: 0 <= k < |spec.metrics| && spec.metrics[k].name == r.name
  }

  /** The result at `i` or one before it asks a provider that fails. */
  ghost predicate StopsBy(spec: RunSpec, results: seq<MetricResult>, gc: string -> GcOutcome, i: nat)
    requires i < |results|
  {
    exists j :: 0 <= j <= i && AsksToCollect(spec, results[j]) && gc(results[j].name) == GcFailed
  }

  lemma {:induction false} StopsTells(spec: RunSpec, results: seq<MetricResult>, gc: string -> GcOutcome, i: nat)
    requires i < |results|
    ensures StopsBy(spec, results, gc, i) <==>
      || (TooLong(spec, results[0]) && gc(results[0].name).GcFailed?)
      || (i > 0 && StopsBy(spec, results[1..], gc, i - 1))
  {
    if j :| 0 <= j <= i && AsksToCollect(spec, results[j]) && gc(results[j].name) == GcFailed {
      if j > 0 {
        assert results[1..][j - 1] == results[j];
      }
    }
    if i > 0 && StopsBy(spec, results[1..], gc, i - 1) {
      var j :| 0 <= j <= i - 1 && AsksToCollect(spec, results[1..][j]) && gc(results[1..][j].name) == GcFailed;
      assert AsksToCollect(spec, results[j + 1]) && gc(results[j + 1].name) == GcFailed;
    }
  }

  /** What a collection does to each result: it keeps the newest of its measurements if it asks to be collected and the
      provider does so, and stays as it is otherwise, if its provider is missing, and from the first failing one on. */
  lemma {:induction false} CollectionOutcome(spec: RunSpec, results: seq<MetricResult>, gc: string -> GcOutcome, i: nat)
    requires i < |results|
    ensures |Sweep(spec, results, gc)| == |results|
    ensures
      var r, r' := results[i], Sweep(spec, results, gc)[i];
      if AsksToCollect(spec, r) && gc(r.name) == Trimmed && !StopsBy(spec, results, gc, i) then KeepsNewest(spec, r, r')
      else r' == r
  {
    hide TooLong, KeepsNewest, StopsBy;
    CollectionKeepsLength(spec, results, gc);
    StopsTells(spec, results, gc, i);
    if TooLong(spec, results[0]) && gc(results[0].name).GcFailed? {
      return;
    }
    if i > 0 {
      CollectionOutcome(spec, results[1..], gc, i - 1);
    } else {
      SweptOutcome(spec, results[0], gc);
    }
  }

  lemma {:induction false} CollectionKeepsLength(spec: RunSpec, results: seq<MetricResult>, gc: string -> GcOutcome)
    ensures |Sweep(spec, results, gc)| == |results|
  {
    if results != [] {
      CollectionKeepsLength(spec, results[1..], gc);
    }
  }

  lemma {:induction false} SweptOutcome(spec: RunSpec, r: MetricResult, gc: string -> GcOutcome)
    ensures TooLong(spec, r) <==> AsksToCollect(spec, r)
    ensures AsksToCollect(spec, r) && gc(r.name) == Trimmed ==> KeepsNewest(spec, r, Swept(spec, r, gc))
    ensures !AsksToCollect(spec, r) || gc(r.name) == NoGcProvider ==> Swept(spec, r, gc) == r
  {
  }
}
