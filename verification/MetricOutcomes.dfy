/** What a metric ends with, told from its measurements and its specification alone: the counters that the controller
    keeps are never looked at. */
module MetricOutcomes {
  import opened Prelude
  import opened AnalysisTypes
  import opened MetricLife

  /** The limits of a metric, defaults filled in. */
  datatype Limits = Limits(failure: int, inconclusive: int, error: int, success: int, count: Option<int>)

  function LimitsOf(m: Metric): Limits {
    Limits(if m.failureLimit.Some? then m.failureLimit.value else 0,
           if m.inconclusiveLimit.Some? then m.inconclusiveLimit.value else 0,
           if m.consecutiveErrorLimit.Some? then m.consecutiveErrorLimit.value else 4,
           if m.consecutiveSuccessLimit.Some? then m.consecutiveSuccessLimit.value else 0,
           if m.count.Some? && m.count.value != 0 then m.count else if m.interval.Some? then None else Some(1))
  }

  function CountIn(h: seq<Measurement>, phases: set<Phase>): nat {
    if h == [] then 0 else CountIn(h[..|h| - 1], phases) + (if h[|h| - 1].phase in phases then 1 else 0)
  }

  /** At least `n` of the newest measurements are all in phase `p`. */
  ghost predicate EndsWith(h: seq<Measurement>, p: Phase, n: int) {
    n <= |h| && forall i :: |h| - n <= i < |h| && 0 <= i ==> h[i].phase == p
  }

  /** The phase that the measurements of a metric earn it, for a run that is terminating or not. */
  ghost function Earned(h: seq<Measurement>, limits: Limits, terminating: bool): Phase {
    if h == [] then if terminating then Successful else Pending
    else if h[|h| - 1].phase !in {Successful, Failed, Error, Inconclusive} then Running
    else if EndsWith(h, Error, limits.error + 1) then Error
    else if CountIn(h, {Inconclusive}) > limits.inconclusive then Inconclusive
    else if limits.failure >= 0 && CountIn(h, {Failed}) > limits.failure then Failed
    else if limits.success > 0 && EndsWith(h, Successful, limits.success) then Successful
    else if limits.count.Some? && CountIn(h, {Successful, Failed, Inconclusive}) >= limits.count.value then
      if limits.success <= 0 then Successful else if limits.failure >= 0 then Inconclusive else Failed
    else if terminating then Successful
    else Running
  }

  lemma {:induction false} CountOne(h: seq<Measurement>, p: Phase)
    ensures CountIn(h, {p}) == CountPhase(h, p)
  {
    if h != [] {
      CountOne(h[..|h| - 1], p);
    }
  }

  lemma {:induction false} CountThree(h: seq<Measurement>)
    ensures CountIn(h, {Successful, Failed, Inconclusive}) ==
      CountPhase(h, Successful) + CountPhase(h, Failed) + CountPhase(h, Inconclusive)
  {
    if h != [] {
      CountThree(h[..|h| - 1]);
    }
  }

  lemma {:induction false} TrailingEnds(h: seq<Measurement>, p: Phase, n: int)
    requires n >= 1
    ensures EndsWith(h, p, n) <==> Trailing(h, p) >= n
  {
    TrailingIsBlock(h, p);
  }

  /** The limits of a result whose counters stand for a history are those of the history. */
  lemma {:induction false} CountersTell(m: Metric, r: MetricResult, h: seq<Measurement>)
    requires ValidMetric(m) && h != [] && Completed(h[|h| - 1].phase) && CountersOf(r) == Tally(Finished(h))
    ensures ErrorOver(m, r) <==> EndsWith(h, Error, LimitsOf(m).error + 1)
    ensures InconclusiveOver(m, r) <==> CountIn(h, {Inconclusive}) > LimitsOf(m).inconclusive
    ensures FailedOver(m, r) <==> LimitsOf(m).failure >= 0 && CountIn(h, {Failed}) > LimitsOf(m).failure
    ensures SuccessLimit(m) == LimitsOf(m).success && FailureLimit(m) == LimitsOf(m).failure
    ensures SuccessLimit(m) > 0 ==>
      (r.consecutiveSuccess >= SuccessLimit(m) <==> EndsWith(h, Successful, LimitsOf(m).success))
    ensures CountReached(m, r) <==>
      && LimitsOf(m).count.Some?
      && CountIn(h, {Successful, Failed, Inconclusive}) >= LimitsOf(m).count.value
  {
    hide Trailing, CountPhase, CountIn, EndsWith;
    CountOne(h, Inconclusive);
    CountOne(h, Failed);
    CountThree(h);
    TrailingEnds(h, Error, LimitsOf(m).error + 1);
    if SuccessLimit(m) > 0 {
      TrailingEnds(h, Successful, LimitsOf(m).success);
    }
  }

  /** Assessing the counters gives what the measurements earn. */
  lemma {:induction false} AssessedIsEarned(m: Metric, r: MetricResult, h: seq<Measurement>, terminating: bool)
    requires ValidMetric(m) && !Completed(r.phase) && (h == [] <==> r.measurements == [])
    requires h != [] ==> r.measurements[|r.measurements| - 1] == h[|h| - 1]
    requires h != [] ==> CountersOf(r) == Tally(Finished(h)) && AtMostOneOver(m, r)
    ensures AssessMetric(m, r, terminating) == Earned(h, LimitsOf(m), terminating)
  {
    hide LimitsOf, EndsWith, CountIn, Tally, CountersOf, FailedOver, InconclusiveOver, ErrorOver, CountReached,
      SuccessLimit, FailureLimit, ValidMetric;
    if h != [] && Completed(h[|h| - 1].phase) {
      CountersTell(m, r, h);
    }
  }

  /** Over every sequence of passes, a metric that is still open when it is assessed gets exactly the phase that its
      measurements earn it. */
  lemma {:induction false} PhaseIsEarned(m: Metric, dryRun: bool, l: Life, passes: seq<Pass>, p: Pass)
    requires ValidMetric(m) && Reachable(m, dryRun, l, passes) && Allowed(m, l, p)
    requires l.result.Some? ==> l.result.value.phase !in {Successful, Failed, Error, Inconclusive}
    requires Step(m, dryRun, l, p).result.Some?
    ensures
      var l' := Step(m, dryRun, l, p);
      l'.result.value.phase == Earned(l'.history, LimitsOf(m), p.terminating)
  {
    hide Reachable, LimitsOf, Earned, AssessMetric, Measure, ValidMetric, Allowed, Inv, AfterMeasuring, AtMostOneOver,
      CountersOf, Tally, Finished;
    ReachableInv(m, dryRun, l, passes);
    MeasuredLife(m, dryRun, l, p);
    var l1 := if p.due then Measure(m, dryRun, l, p.answer) else l;
    AfterMeasuringShape(m, l1);
    AssessedIsEarned(m, l1.result.value, l1.history, p.terminating);
  }

  lemma {:induction false} MeasuredLife(m: Metric, dryRun: bool, l: Life, p: Pass)
    requires ValidMetric(m) && Inv(m, l) && Allowed(m, l, p) && Step(m, dryRun, l, p).result.Some?
    requires l.result.Some? ==> !Completed(l.result.value.phase)
    ensures
      var l1 := if p.due then Measure(m, dryRun, l, p.answer) else l;
      && AfterMeasuring(m, l1) && l1.result.Some? && !Completed(l1.result.value.phase)
  {
    hide AfterMeasuring;
    if p.due {
      MeasureInv(m, dryRun, l, p.answer);
      MeasurePhase(m, dryRun, l, p.answer);
    } else {
      InvIsAfterMeasuring(m, l);
    }
  }

  lemma {:induction false} MeasurePhase(m: Metric, dryRun: bool, l: Life, a: Answer)
    ensures Measure(m, dryRun, l, a).result.Some?
    ensures Measure(m, dryRun, l, a).result.value.phase == if l.result.Some? then l.result.value.phase else Running
  {
  }

  lemma {:induction false} InvIsAfterMeasuring(m: Metric, l: Life)
    requires Inv(m, l)
    ensures AfterMeasuring(m, l)
  {
  }

  lemma {:induction false} AfterMeasuringShape(m: Metric, l: Life)
    requires AfterMeasuring(m, l) && l.result.Some?
    ensures l.history != [] && l.result.value.measurements != [] && SuffixOf(l.result.value.measurements, l.history)
    ensures CountersOf(l.result.value) == Tally(Finished(l.history))
    ensures AtMostOneOver(m, l.result.value)
  {
  }

  /** What a history gains from an answer: the measurement as the provider gave it, finished when it is completed; a
      missing provider ends the measurement in flight, or a new one, as an error. */
  lemma {:induction false} AnswerIsTaken(a: Answer, inFlight: Option<Measurement>)
    ensures a.Measured? ==>
      var t := Taken(a, inFlight);
      && t == a.m.(finishedAt := t.finishedAt)
      && t.finishedAt == (if a.m.finishedAt == None && a.m.phase in {Successful, Failed, Error, Inconclusive}
                          then Some(a.at) else a.m.finishedAt)
    ensures a.NoProvider? ==>
      var t := Taken(a, inFlight);
      && t.phase == Error && t.finishedAt.Some?
      && (inFlight.Some? ==>
            && t == inFlight.value.(phase := Error, finishedAt := t.finishedAt)
            && (inFlight.value.finishedAt == None ==> t.finishedAt == Some(a.at)))
      && (inFlight == None ==> t.value == "" && t.resumeAt == None && t.finishedAt == Some(a.at))
  {
  }
}
