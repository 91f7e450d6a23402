/** The life of one metric inside an AnalysisRun: what one measurement does to its result, how the result
    is assessed, and what stays true over every sequence of reconciles. */
module MetricLife {
  import opened Prelude
  import opened AnalysisTypes

  // ---------------------------------------------------------------------------------------------
  // One measurement

  /** What comes back when a measurement is run, resumed or terminated; `at` is the clock at that moment.
      A provider that cannot be created answers `NoProvider`. */
  datatype Answer = NoProvider(at: int) | Measured(at: int, m: Measurement)

  /** Providers set the finish time only on a completed measurement. */
  predicate Honest(a: Answer) {
    a.Measured? && a.m.finishedAt.Some? ==> Completed(a.m.phase)
  }

  /** The last measurement of a result. */
  function LastOf(r: Option<MetricResult>): Option<Measurement> {
    if r.Some? && r.value.measurements != [] then Some(r.value.measurements[|r.value.measurements| - 1]) else None
  }

  /** The measurement recorded for an answer: a missing provider turns the in-flight measurement (or a new one)
      into an error, and a completed measurement without a finish time finishes now. */
  function Taken(a: Answer, inFlight: Option<Measurement>): Measurement {
    var m := match a
      case NoProvider(_) =>
        if inFlight.Some? then inFlight.value.(phase := Error) else Measurement(Error, "", None, None)
      case Measured(_, got) => got;
    if Completed(m.phase) && m.finishedAt == None then m.(finishedAt := Some(a.at)) else m
  }

  /** The counters after a measurement in phase `p`. */
  function Bump(r: MetricResult, p: Phase): MetricResult {
    match p
    case Successful =>
      r.(successful := r.successful + 1, count := r.count + 1,
         consecutiveError := 0, consecutiveSuccess := r.consecutiveSuccess + 1)
    case Failed =>
      r.(failed := r.failed + 1, count := r.count + 1, consecutiveError := 0, consecutiveSuccess := 0)
    case Inconclusive =>
      r.(inconclusive := r.inconclusive + 1, count := r.count + 1, consecutiveError := 0, consecutiveSuccess := 0)
    case Error =>
      r.(error := r.error + 1, consecutiveError := r.consecutiveError + 1, consecutiveSuccess := 0)
    case _ => r
  }

  /** A new measurement goes to the end of the list; a resumed one replaces the last. */
  function Place(ms: seq<Measurement>, m: Measurement, resuming: bool): seq<Measurement> {
    if resuming && ms != [] then ms[..|ms| - 1] + [m] else ms + [m]
  }

  /** A result after measurement `m` is counted and placed. */
  function Extend(r: MetricResult, m: Measurement, resuming: bool): MetricResult {
    Bump(r, m.phase).(measurements := Place(r.measurements, m, resuming))
  }

  function Fresh(name: string, dryRun: bool): MetricResult {
    MetricResult(name, Running, dryRun, [], 0, 0, 0, 0, 0, 0, 0)
  }

  /** The result of metric `name` after one task ran for it. */
  function Record(name: string, dryRun: bool, prev: Option<MetricResult>, resuming: bool, a: Answer): MetricResult {
    Extend(if prev.Some? then prev.value else Fresh(name, dryRun),
           Taken(a, if resuming then LastOf(prev) else None), resuming)
  }

  // ---------------------------------------------------------------------------------------------
  // Assessment

  predicate FailedOver(m: Metric, r: MetricResult) {
    FailureLimit(m) >= 0 && r.failed > FailureLimit(m)
  }

  predicate InconclusiveOver(m: Metric, r: MetricResult) {
    r.inconclusive > InconclusiveLimit(m)
  }

  predicate ErrorOver(m: Metric, r: MetricResult) {
    r.consecutiveError > ErrorLimit(m)
  }

  /** The limit checks in the order of the source: a later check overrides an earlier one. */
  function AssessLimits(m: Metric, r: MetricResult): Phase {
    if ErrorOver(m, r) then Error
    else if InconclusiveOver(m, r) then Inconclusive
    else if FailedOver(m, r) then Failed
    else Unset
  }

  predicate CountReached(m: Metric, r: MetricResult) {
    EffectiveCount(m).Some? && r.count >= EffectiveCount(m).value
  }

  function AssessMetric(m: Metric, r: MetricResult, terminating: bool): Phase {
    if Completed(r.phase) then r.phase
    else if r.measurements == [] then
      if terminating then Successful else Pending
    else if !Completed(r.measurements[|r.measurements| - 1].phase) then Running
    else if AssessLimits(m, r) != Unset then AssessLimits(m, r)
    else if SuccessLimit(m) > 0 && r.consecutiveSuccess >= SuccessLimit(m) then Successful
    else if CountReached(m, r) then
      if FailureLimit(m) >= 0 && SuccessLimit(m) > 0 then Inconclusive
      else if SuccessLimit(m) > 0 then Failed
      else Successful
    else if terminating then Successful
    else Running
  }

  /** Keep only the newest `limit` measurements. */
  function Trim(ms: seq<Measurement>, limit: nat): (out: seq<Measurement>)
    ensures |out| == Min(|ms|, limit) && out == ms[|ms| - |out|..]
  {
    if |ms| > limit then ms[|ms| - limit..] else ms
  }

  // ---------------------------------------------------------------------------------------------
  // One reconcile, seen by one metric

  /** What one reconcile does to the metric: `due` says a task ran, `terminating` is the run's state when the
      metric is assessed, and `keep` is the retention limit when trimming took place. */
  datatype Pass = Pass(due: bool, answer: Answer, terminating: bool, keep: Option<nat>)

  /** A metric with its untrimmed measurement history. */
  datatype Life = Life(result: Option<MetricResult>, history: seq<Measurement>)

  predicate InFlight(r: Option<MetricResult>) {
    LastOf(r).Some? && LastOf(r).value.finishedAt == None
  }

  /** A task may run only while the metric is open; a metric that has reached its count is only resumed. */
  predicate MayRun(m: Metric, r: Option<MetricResult>) {
    r.Some? ==>
      && !Completed(r.value.phase)
      && (LastOf(r) == None || InFlight(r) || !CountReached(m, r.value))
  }

  function Measure(m: Metric, dryRun: bool, l: Life, a: Answer): Life {
    var resuming := InFlight(l.result);
    Life(Some(Record(m.name, dryRun, l.result, resuming, a)),
         Place(l.history, Taken(a, if resuming then LastOf(l.result) else None), resuming))
  }

  function Assess(m: Metric, l: Life, terminating: bool): Life {
    if l.result == None then l
    else l.(result := Some(l.result.value.(phase := AssessMetric(m, l.result.value, terminating))))
  }

  function Collect(l: Life, keep: Option<nat>): Life {
    if l.result == None || keep == None then l
    else l.(result := Some(l.result.value.(measurements := Trim(l.result.value.measurements, keep.value))))
  }

  function Step(m: Metric, dryRun: bool, l: Life, p: Pass): Life {
    Collect(Assess(m, if p.due then Measure(m, dryRun, l, p.answer) else l, p.terminating), p.keep)
  }

  /** A pass the controller can make in this state, with an honest provider and a retention limit of at least one. */
  predicate Allowed(m: Metric, l: Life, p: Pass) {
    && (p.due ==> MayRun(m, l.result) && Honest(p.answer))
    && (p.keep.Some? ==> p.keep.value >= 1)
  }

  ghost predicate Reachable(m: Metric, dryRun: bool, l: Life, passes: seq<Pass>)
    decreases |passes|
  {
    if passes == [] then l == Life(None, [])
    else
      var last := passes[|passes| - 1];
      exists before: Life :: Reachable(m, dryRun, before, passes[..|passes| - 1])
        && Allowed(m, before, last) && l == Step(m, dryRun, before, last)
  }

  // ---------------------------------------------------------------------------------------------
  // The history the counters stand for

  function CountPhase(h: seq<Measurement>, p: Phase): nat {
    if h == [] then 0 else CountPhase(h[..|h| - 1], p) + (if h[|h| - 1].phase == p then 1 else 0)
  }

  /** Length of the block of measurements in phase `p` at the end of the history. */
  function Trailing(h: seq<Measurement>, p: Phase): nat {
    if h == [] || h[|h| - 1].phase != p then 0 else 1 + Trailing(h[..|h| - 1], p)
  }

  /** The history without a measurement still in flight. */
  function Finished(h: seq<Measurement>): seq<Measurement> {
    if h != [] && !Completed(h[|h| - 1].phase) then h[..|h| - 1] else h
  }

  /** The seven counters of a result. */
  datatype Counters = Counters(
    successful: int, failed: int, inconclusive: int, error: int,
    count: int, consecutiveError: int, consecutiveSuccess: int)

  function CountersOf(r: MetricResult): Counters {
    Counters(r.successful, r.failed, r.inconclusive, r.error, r.count, r.consecutiveError, r.consecutiveSuccess)
  }

  /** The counters a history of completed measurements stands for, recounted from scratch. */
  function Tally(done: seq<Measurement>): Counters {
    Counters(
      CountPhase(done, Successful), CountPhase(done, Failed), CountPhase(done, Inconclusive), CountPhase(done, Error),
      CountPhase(done, Successful) + CountPhase(done, Failed) + CountPhase(done, Inconclusive),
      Trailing(done, Error), Trailing(done, Successful))
  }

  /** Only the last measurement can be in flight, and it is in flight exactly while it has no finish time. */
  ghost predicate OnlyLastInFlight(h: seq<Measurement>) {
    && (forall i :: 0 <= i < |h| ==> (h[i].finishedAt.Some? <==> Completed(h[i].phase)))
    && (forall i :: 0 <= i < |h| - 1 ==> Completed(h[i].phase))
  }

  ghost predicate SuffixOf(ms: seq<Measurement>, h: seq<Measurement>) {
    |ms| <= |h| && ms == h[|h| - |ms|..]
  }

  /** Exceeded by exactly one: the state in which a limit ends the metric. */
  predicate JustOver(m: Metric, r: MetricResult) {
    && (FailedOver(m, r) ==> r.failed == FailureLimit(m) + 1)
    && (InconclusiveOver(m, r) ==> r.inconclusive == InconclusiveLimit(m) + 1)
    && (ErrorOver(m, r) ==> r.consecutiveError == ErrorLimit(m) + 1)
  }

  predicate AtMostOneOver(m: Metric, r: MetricResult) {
    && !(FailedOver(m, r) && InconclusiveOver(m, r))
    && !(FailedOver(m, r) && ErrorOver(m, r))
    && !(InconclusiveOver(m, r) && ErrorOver(m, r))
  }

  /** What history has to do with the result at every moment, also between measuring and assessing. */
  ghost predicate Refines(r: MetricResult, h: seq<Measurement>) {
    && r.measurements != []
    && SuffixOf(r.measurements, h)
    && OnlyLastInFlight(h)
    && CountersOf(r) == Tally(Finished(h))
  }

  /** Errors are paid for by counted measurements: at most `ErrorLimit` of them for each, plus the open block. */
  predicate ErrorsBounded(m: Metric, r: MetricResult) {
    r.error <= r.count * ErrorLimit(m) + r.consecutiveError
  }

  /** The metric's effective count is set and asks for at least one measurement. */
  predicate Counted(m: Metric) {
    EffectiveCount(m).Some? && EffectiveCount(m).value >= 1
  }

  /** How far the counters can be from the limits of the metric. */
  ghost predicate Bounded(m: Metric, r: MetricResult) {
    && AtMostOneOver(m, r) && JustOver(m, r)
    && ErrorsBounded(m, r)
    && (Counted(m) ==> r.count <= EffectiveCount(m).value)
    && (Counted(m) && r.count == EffectiveCount(m).value ==> r.consecutiveError == 0)
  }

  /** What is true of a result at every moment, also between measuring and assessing. */
  ghost predicate Core(m: Metric, r: MetricResult, h: seq<Measurement>) {
    Refines(r, h) && Bounded(m, r)
  }

  /** A metric that is still open has exceeded no limit and not reached its count. */
  predicate WithinLimits(m: Metric, r: MetricResult) {
    && !FailedOver(m, r) && !InconclusiveOver(m, r) && !ErrorOver(m, r)
    && (Counted(m) ==> r.count < EffectiveCount(m).value)
  }

  /** Holds after the measuring phase of a reconcile. */
  ghost predicate AfterMeasuring(m: Metric, l: Life) {
    && (l.result == None ==> l.history == [])
    && (l.result.Some? ==>
          var r := l.result.value;
          && Core(m, r, l.history)
          && (!Completed(r.phase) && InFlight(l.result) ==> WithinLimits(m, r)))
  }

  /** Holds between reconciles. */
  ghost predicate Inv(m: Metric, l: Life) {
    && (l.result == None ==> l.history == [])
    && (l.result.Some? ==>
          && Core(m, l.result.value, l.history)
          && (!Completed(l.result.value.phase) ==> WithinLimits(m, l.result.value)))
  }

  /** Placing a measurement adds it to the finished history exactly when it is completed. */
  lemma {:induction false} PlaceHistory(h: seq<Measurement>, t: Measurement, resuming: bool)
    requires OnlyLastInFlight(h)
    requires resuming <==> h != [] && !Completed(h[|h| - 1].phase)
    requires t.finishedAt.Some? <==> Completed(t.phase)
    ensures OnlyLastInFlight(Place(h, t, resuming))
    ensures Finished(Place(h, t, resuming)) == Finished(h) + (if Completed(t.phase) then [t] else [])
  {
    var h' := Place(h, t, resuming);
    assert h'[..|h'| - 1] == Finished(h);
    assert h' == Finished(h) + [t];
  }

  lemma {:induction false} PlaceSuffix(ms: seq<Measurement>, h: seq<Measurement>, t: Measurement, resuming: bool)
    requires SuffixOf(ms, h) && (ms == [] ==> h == [])
    ensures SuffixOf(Place(ms, t, resuming), Place(h, t, resuming))
  {
  }

  lemma {:induction false} CountPhaseAdd(done: seq<Measurement>, t: Measurement, p: Phase)
    ensures CountPhase(done + [t], p) == CountPhase(done, p) + (if t.phase == p then 1 else 0)
  {
    assert (done + [t])[..|done|] == done;
  }

  lemma {:induction false} TrailingAdd(done: seq<Measurement>, t: Measurement, p: Phase)
    ensures Trailing(done + [t], p) == if t.phase == p then Trailing(done, p) + 1 else 0
  {
    assert (done + [t])[..|done|] == done;
  }

  /** Counters that stand for a finished history keep standing for it when one measurement is added. */
  lemma {:induction false} BumpCounters(r: MetricResult, done: seq<Measurement>, t: Measurement)
    requires CountersOf(r) == Tally(done) && Completed(t.phase)
    ensures CountersOf(Bump(r, t.phase)) == Tally(done + [t])
  {
    CountPhaseAdd(done, t, Successful);
    CountPhaseAdd(done, t, Failed);
    CountPhaseAdd(done, t, Inconclusive);
    CountPhaseAdd(done, t, Error);
    TrailingAdd(done, t, Error);
    TrailingAdd(done, t, Successful);
  }

  /** The result a measurement starts from, what it records, and the two facts the proofs below need about it. */
  lemma {:induction false} MeasureShape(m: Metric, dryRun: bool, l: Life, a: Answer)
    returns (r: MetricResult, t: Measurement, resuming: bool)
    requires l.result == None ==> l.history == []
    requires l.result.Some? ==> Refines(l.result.value, l.history)
    requires Honest(a)
    ensures r == if l.result.Some? then l.result.value else Fresh(m.name, dryRun)
    ensures resuming == InFlight(l.result)
    ensures t == Taken(a, if resuming then LastOf(l.result) else None)
    ensures t.finishedAt.Some? <==> Completed(t.phase)
    ensures resuming <==> l.history != [] && !Completed(l.history[|l.history| - 1].phase)
    ensures SuffixOf(r.measurements, l.history) && (r.measurements == [] ==> l.history == [])
    ensures OnlyLastInFlight(l.history) && CountersOf(r) == Tally(Finished(l.history)) && r.consecutiveError >= 0
    ensures Measure(m, dryRun, l, a) ==
      Life(Some(Extend(r, t, resuming)), Place(l.history, t, resuming))
  {
    r := if l.result.Some? then l.result.value else Fresh(m.name, dryRun);
    resuming := InFlight(l.result);
    t := Taken(a, if resuming then LastOf(l.result) else None);
    if l.result.Some? {
      assert LastOf(l.result).value == l.history[|l.history| - 1];
    }
  }

  lemma {:induction false} ExtendCounters(r: MetricResult, h: seq<Measurement>, t: Measurement, resuming: bool)
    requires CountersOf(r) == Tally(Finished(h))
    requires Finished(Place(h, t, resuming)) == Finished(h) + (if Completed(t.phase) then [t] else [])
    ensures CountersOf(Extend(r, t, resuming)) == Tally(Finished(Place(h, t, resuming)))
  {
    assert CountersOf(Extend(r, t, resuming)) == CountersOf(Bump(r, t.phase));
    if Completed(t.phase) {
      BumpCounters(r, Finished(h), t);
    } else {
      assert Finished(Place(h, t, resuming)) == Finished(h);
    }
  }

  lemma {:induction false} ExtendRefines(r: MetricResult, h: seq<Measurement>, t: Measurement, resuming: bool)
    requires SuffixOf(r.measurements, h) && (r.measurements == [] ==> h == [])
    requires OnlyLastInFlight(h) && CountersOf(r) == Tally(Finished(h))
    requires resuming <==> h != [] && !Completed(h[|h| - 1].phase)
    requires t.finishedAt.Some? <==> Completed(t.phase)
    ensures Refines(Extend(r, t, resuming), Place(h, t, resuming))
  {
    PlaceHistory(h, t, resuming);
    PlaceSuffix(r.measurements, h, t, resuming);
    ExtendCounters(r, h, t, resuming);
  }

  /** One completed measurement moves exactly one of the limited counters, and by one. */
  lemma {:induction false} BumpLimits(m: Metric, r: MetricResult, p: Phase)
    requires ValidMetric(m) && WithinLimits(m, r) && ErrorsBounded(m, r) && r.consecutiveError >= 0
    ensures Bounded(m, Bump(r, p))
    ensures !Completed(p) ==> WithinLimits(m, Bump(r, p))
  {
    assert (r.count + 1) * ErrorLimit(m) == r.count * ErrorLimit(m) + ErrorLimit(m);
  }

  lemma {:induction false} ExtendLimits(m: Metric, r: MetricResult, t: Measurement, resuming: bool)
    requires ValidMetric(m) && WithinLimits(m, r) && ErrorsBounded(m, r) && r.consecutiveError >= 0
    ensures Bounded(m, Extend(r, t, resuming))
    ensures !Completed(t.phase) ==> WithinLimits(m, Extend(r, t, resuming))
    ensures LastOf(Some(Extend(r, t, resuming))) == Some(t)
  {
    BumpLimits(m, r, t.phase);
    assert CountersOf(Extend(r, t, resuming)) == CountersOf(Bump(r, t.phase));
  }

  lemma {:induction false} FreshWithinLimits(m: Metric, dryRun: bool)
    requires ValidMetric(m)
    ensures WithinLimits(m, Fresh(m.name, dryRun)) && ErrorsBounded(m, Fresh(m.name, dryRun))
  {
  }

  lemma {:induction false} MeasureInv(m: Metric, dryRun: bool, l: Life, a: Answer)
    requires ValidMetric(m) && Inv(m, l) && MayRun(m, l.result) && Honest(a)
    ensures AfterMeasuring(m, Measure(m, dryRun, l, a))
  {
    hide Bump, Tally, CountersOf, Finished, SuffixOf, OnlyLastInFlight;
    var r, t, resuming := MeasureShape(m, dryRun, l, a);
    if l.result == None {
      FreshWithinLimits(m, dryRun);
    }
    ExtendRefines(r, l.history, t, resuming);
    ExtendLimits(m, r, t, resuming);
  }

  lemma {:induction false} AssessInv(m: Metric, l: Life, terminating: bool)
    requires ValidMetric(m) && AfterMeasuring(m, l)
    ensures Inv(m, Assess(m, l, terminating))
  {
  }

  lemma {:induction false} CollectInv(m: Metric, l: Life, keep: Option<nat>)
    requires Inv(m, l) && (keep.Some? ==> keep.value >= 1)
    ensures Inv(m, Collect(l, keep))
  {
  }

  lemma {:induction false} StepInv(m: Metric, dryRun: bool, l: Life, p: Pass)
    requires ValidMetric(m) && Inv(m, l) && Allowed(m, l, p)
    ensures Inv(m, Step(m, dryRun, l, p))
  {
    if p.due {
      MeasureInv(m, dryRun, l, p.answer);
    }
    var l' := if p.due then Measure(m, dryRun, l, p.answer) else l;
    AssessInv(m, l', p.terminating);
    CollectInv(m, Assess(m, l', p.terminating), p.keep);
  }

  lemma {:induction false} ReachableInv(m: Metric, dryRun: bool, l: Life, passes: seq<Pass>)
    requires ValidMetric(m) && Reachable(m, dryRun, l, passes)
    ensures Inv(m, l)
    decreases |passes|
  {
    if passes != [] {
      var last := passes[|passes| - 1];
      var before: Life :| Reachable(m, dryRun, before, passes[..|passes| - 1])
        && Allowed(m, before, last) && l == Step(m, dryRun, before, last);
      ReachableInv(m, dryRun, before, passes[..|passes| - 1]);
      StepInv(m, dryRun, before, last);
    }
  }

  // ---------------------------------------------------------------------------------------------
  // Main results, for every run of one metric

  lemma {:induction false} PhasesPartition(done: seq<Measurement>)
    requires forall i :: 0 <= i < |done| ==> Completed(done[i].phase)
    ensures CountPhase(done, Successful) + CountPhase(done, Failed) + CountPhase(done, Inconclusive)
         + CountPhase(done, Error) == |done|
  {
    if done != [] {
      PhasesPartition(done[..|done| - 1]);
    }
  }

  /** The trailing block really is one: its members are in phase `p`, and the one before it is not. */
  lemma {:induction false} TrailingIsBlock(done: seq<Measurement>, p: Phase)
    ensures Trailing(done, p) <= |done|
    ensures forall i :: |done| - Trailing(done, p) <= i < |done| ==> done[i].phase == p
    ensures Trailing(done, p) < |done| ==> done[|done| - Trailing(done, p) - 1].phase != p
  {
    if done != [] && done[|done| - 1].phase == p {
      TrailingIsBlock(done[..|done| - 1], p);
    }
  }

  /** In every reachable state the counters are those of the full untrimmed history, every completed measurement
      is counted once, only the last can be in flight, and what is kept is a nonempty suffix. */
  lemma {:induction false} HistoryRefinement(m: Metric, dryRun: bool, l: Life, passes: seq<Pass>)
    requires ValidMetric(m) && Reachable(m, dryRun, l, passes)
    ensures l.result == None <==> l.history == []
    ensures l.result.Some? ==>
      var r, done := l.result.value, Finished(l.history);
      && CountersOf(r) == Tally(done)
      && r.count == r.successful + r.failed + r.inconclusive
      && r.count + r.error == |done|
      && OnlyLastInFlight(l.history)
      && r.measurements != [] && SuffixOf(r.measurements, l.history)
  {
    ReachableInv(m, dryRun, l, passes);
    if l.result.Some? {
      PhasesPartition(Finished(l.history));
    }
  }

  predicate Over(m: Metric, r: MetricResult, p: Phase) {
    || (p == Failed && FailedOver(m, r))
    || (p == Inconclusive && InconclusiveOver(m, r))
    || (p == Error && ErrorOver(m, r))
  }

  /** The limit checks made in any order, each overriding those before it. */
  function LastOver(m: Metric, r: MetricResult, order: seq<Phase>): Phase {
    if order == [] then Unset
    else if Over(m, r, order[|order| - 1]) then order[|order| - 1]
    else LastOver(m, r, order[..|order| - 1])
  }

  lemma {:induction false} OnlyOneWins(m: Metric, r: MetricResult, order: seq<Phase>, p: Phase)
    requires Over(m, r, p) && AtMostOneOver(m, r)
    ensures LastOver(m, r, order) == if p in order then p else Unset
  {
    if order != [] {
      OnlyOneWins(m, r, order[..|order| - 1], p);
      assert order == order[..|order| - 1] + [order[|order| - 1]];
    }
  }

  lemma {:induction false} NoneWins(m: Metric, r: MetricResult, order: seq<Phase>)
    requires !Over(m, r, Failed) && !Over(m, r, Inconclusive) && !Over(m, r, Error)
    ensures LastOver(m, r, order) == Unset
  {
    if order != [] {
      NoneWins(m, r, order[..|order| - 1]);
    }
  }

  /** When a metric is assessed after a measurement, at most one limit is exceeded and by exactly one, so the
      order in which the three checks override each other never decides the phase. */
  lemma {:induction false} LimitOrderNeverDecides(m: Metric, dryRun: bool, l: Life, passes: seq<Pass>, a: Answer,
      order: seq<Phase>)
    requires ValidMetric(m) && Reachable(m, dryRun, l, passes)
    requires MayRun(m, l.result) && Honest(a)
    requires Failed in order && Inconclusive in order && Error in order
    ensures
      var r := Measure(m, dryRun, l, a).result.value;
      AtMostOneOver(m, r) && JustOver(m, r) && LastOver(m, r, order) == AssessLimits(m, r)
  {
    ReachableInv(m, dryRun, l, passes);
    MeasureInv(m, dryRun, l, a);
    var r := Measure(m, dryRun, l, a).result.value;
    if p :| p in {Failed, Inconclusive, Error} && Over(m, r, p) {
      OnlyOneWins(m, r, order, p);
    } else {
      NoneWins(m, r, order);
    }
  }

  /** A metric with an effective count finishes at most count * (error limit + 1) measurements, ever, and is completed
      by the time it has finished that many. */
  lemma {:induction false} BoundedWork(m: Metric, dryRun: bool, l: Life, passes: seq<Pass>)
    requires ValidMetric(m) && Counted(m) && Reachable(m, dryRun, l, passes)
    ensures l.result.Some? ==> |Finished(l.history)| <= EffectiveCount(m).value * (ErrorLimit(m) + 1)
    ensures l.result.Some? && !Completed(l.result.value.phase) ==>
      |Finished(l.history)| < EffectiveCount(m).value * (ErrorLimit(m) + 1)
    ensures l.result.Some? ==>
      && l.result.value.count <= EffectiveCount(m).value
      && l.result.value.error <= l.result.value.count * ErrorLimit(m) + l.result.value.consecutiveError
  {
    ReachableInv(m, dryRun, l, passes);
    if l.result.Some? {
      var r := l.result.value;
      HistoryRefinement(m, dryRun, l, passes);
      BudgetArithmetic(EffectiveCount(m).value, ErrorLimit(m), r.count, r.error, r.consecutiveError);
    }
  }

  lemma {:induction false} BudgetArithmetic(n: int, e: int, count: int, error: int, consecutive: int)
    requires n >= 1 && e >= 0 && count <= n && consecutive <= e + 1
    requires count == n ==> consecutive == 0
    requires error <= count * e + consecutive
    ensures count + error <= n * (e + 1)
    ensures count < n && consecutive <= e ==> count + error < n * (e + 1)
  {
    var rest := n - count;
    assert n * (e + 1) == count * e + rest * e + n;
    if rest >= 1 {
      assert rest * e >= e;
    }
  }

  lemma {:induction false} InvRefines(m: Metric, l: Life)
    requires Inv(m, l)
    ensures l.result == None ==> l.history == []
    ensures l.result.Some? ==> Refines(l.result.value, l.history)
  {
    hide Bounded, Refines, WithinLimits;
  }

  lemma {:induction false} MeasureSpendsOne(m: Metric, dryRun: bool, l: Life, a: Answer)
    requires l.result == None ==> l.history == []
    requires l.result.Some? ==> Refines(l.result.value, l.history)
    requires Honest(a)
    ensures
      var t := Taken(a, if InFlight(l.result) then LastOf(l.result) else None);
      |Finished(Measure(m, dryRun, l, a).history)| == |Finished(l.history)| + (if Completed(t.phase) then 1 else 0)
  {
    hide Tally, CountersOf, SuffixOf, Refines, Record, Taken, LastOf, Finished;
    var r, t, resuming := MeasureShape(m, dryRun, l, a);
    PlaceHistory(l.history, t, resuming);
  }

  /** Every answer that completes a measurement uses up one unit of that bound; any other answer uses none. */
  lemma {:induction false} MeasureSpends(m: Metric, dryRun: bool, l: Life, passes: seq<Pass>, a: Answer)
    requires ValidMetric(m) && Reachable(m, dryRun, l, passes)
    requires MayRun(m, l.result) && Honest(a)
    ensures
      var t := Taken(a, if InFlight(l.result) then LastOf(l.result) else None);
      |Finished(Measure(m, dryRun, l, a).history)| == |Finished(l.history)| + (if Completed(t.phase) then 1 else 0)
  {
    hide Measure, Taken, Finished, Core, Refines;
    ReachableInv(m, dryRun, l, passes);
    InvRefines(m, l);
    MeasureSpendsOne(m, dryRun, l, a);
  }

  /** A closed metric stays closed: no pass measures it again or changes anything but the retained history. */
  lemma {:induction false} ClosedForGood(m: Metric, dryRun: bool, l: Life, p: Pass)
    requires l.result.Some? && Completed(l.result.value.phase) && Allowed(m, l, p)
    ensures !p.due && Step(m, dryRun, l, p).history == l.history
    ensures Step(m, dryRun, l, p).result.Some?
    ensures
      var r, r' := l.result.value, Step(m, dryRun, l, p).result.value;
      r' == r.(measurements := r'.measurements) && SuffixOf(r'.measurements, r.measurements)
  {
  }
}
