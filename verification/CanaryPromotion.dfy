/** The promotion state machine of a canary rollout: when steps are completed, and when the stable hash moves. */
module CanaryPromotion {
  import opened Prelude
  import opened AnalysisTypes
  import opened PauseContexts
  import opened Rollback
  import TrafficRouting

  datatype Step = Pause(duration: Option<int>) | SetCanaryScale | SetWeight | Experiment | Analysis
    | SetHeaderRoute | SetMirrorRoute | Plugin

  /** The part of the rollout's status that decides promotion. `steps` stands for the recorded hash of the steps. */
  datatype Status = Status(stableRS: Option<string>, currentPodHash: Option<string>, steps: Option<seq<Step>>,
                           index: Option<nat>, promoteFull: bool, pauses: PauseStatus)

  /** What decides, beside the pauses, whether a step is completed: the clock, replica counts against what the step asks
      for, whether the traffic weight is verified, and how experiment, analysis and plugin of the step stand. */
  datatype Progress = Progress(specPaused: bool, now: int, atDesired: bool, verified: Option<bool>,
                               experiment: Option<Phase>, stepRun: Option<Phase>, pluginDone: bool)

  /** What a reconcile finds in the specification and the cluster. `asked` holds the reasons to pause that experiments
      and analysis gave in this reconcile, `scaled` says it found nothing to scale, `addAbort` that analysis or a plugin
      asked for an abort, `deadlineAbort` that the progress deadline did; `savedAt` is the clock when the status is
      written. */
  datatype Seen = Seen(desired: Revision, active: bool, view: TrafficRouting.View, stable: Option<Revision>,
                       all: seq<Revision>, window: Option<int>, steps: seq<Step>, replicas: nat,
                       threshold: Option<TrafficRouting.Threshold>, progress: Progress, asked: seq<Reason>,
                       scaled: bool, addAbort: bool, deadlineAbort: bool, savedAt: int)

  /** The stable ReplicaSet is the one with the recorded hash; experiments and analysis pause for their own reasons. */
  predicate Fits(st: Status, seen: Seen) {
    && (seen.stable.Some? ==> st.stableRS == Some(seen.stable.value.hash))
    && forall i :: 0 <= i < |seen.asked| ==> seen.asked[i] in {InconclusiveAnalysis, InconclusiveExperiment}
  }

  predicate Within(seen: Seen) {
    WithinWindow(seen.all, seen.desired, seen.stable, seen.window)
  }

  predicate Changed(st: Status, seen: Seen) {
    st.steps != Some(seen.steps) || (st.currentPodHash.Some? && st.currentPodHash.value != seen.desired.hash)
  }

  function StepIndex(st: Status): nat {
    if st.index.Some? then st.index.value else 0
  }

  /** The start of the pause of a step, while there is one. */
  function PausedAt(st: Status): Option<int> {
    StartOf(st.pauses.conditions, CanaryPauseStep)
  }

  /** The controller paused the rollout and there is no pause of a step, or the pause has lasted its time. */
  predicate PauseCompleted(duration: Option<int>, st: Status, now: int) {
    || (st.pauses.controllerPause && PausedAt(st) == None)
    || (duration.Some? && PausedAt(st).Some? && now > PausedAt(st).value + duration.value)
  }

  predicate StepCompleted(step: Step, st: Status, p: Progress) {
    match step
    case Pause(duration) => PauseCompleted(duration, st, p.now)
    case SetCanaryScale => p.atDesired
    case SetWeight => p.atDesired && p.verified != Some(false)
    case Experiment => p.experiment == Some(Successful)
    case Analysis => p.stepRun == Some(Successful)
    case SetHeaderRoute => true
    case SetMirrorRoute => true
    case Plugin => p.pluginDone
  }

  function CurrentStep(st: Status, seen: Seen): Option<Step> {
    if StepIndex(st) < |seen.steps| then Some(seen.steps[StepIndex(st)]) else None
  }

  predicate CompletesStep(st: Status, seen: Seen) {
    var step := CurrentStep(st, seen);
    !seen.progress.specPaused && step.Some? && StepCompleted(step.value, st, seen.progress)
  }

  /** The desired ReplicaSet is as available as the rollout asks for, or has met its progress threshold. */
  predicate Ready(seen: Seen) {
    seen.view.available >= seen.replicas || TrafficRouting.ThresholdMet(seen.threshold, seen.view, seen.replicas)
  }

  /** A full promotion was asked for, or a rollback within the window is under way. */
  predicate Forced(st: Status, seen: Seen) {
    st.promoteFull || Within(seen)
  }

  predicate RemovesAbort(st: Status, seen: Seen) {
    (st.stableRS == st.currentPodHash && st.pauses.abort) || Forced(st, seen)
  }

  predicate IsAborted(st: Status, seen: Seen) {
    !RemovesAbort(st, seen) && (seen.addAbort || st.pauses.abort)
  }

  predicate Promotes(st: Status, seen: Seen) {
    || seen.stable == None
    || (&& !IsAborted(st, seen)
        && Ready(seen)
        && (|| st.promoteFull
            || IsFastRollback(seen.all, seen.desired, seen.stable, seen.window, false)
            || seen.steps == []
            || StepIndex(st) == |seen.steps|))
  }

  predicate SkipsSteps(st: Status, seen: Seen) {
    st.stableRS != Some(seen.desired.hash) && Within(seen) && seen.active
  }

  /** The step at the current index is completed, and counts. */
  predicate Advances(st: Status, seen: Seen) {
    !Changed(st, seen) && !Promotes(st, seen) && !IsAborted(st, seen) && CompletesStep(st, seen)
  }

  function IndexAfter(st: Status, seen: Seen): Option<nat> {
    var atStable := st.stableRS == Some(seen.desired.hash);
    if seen.steps == [] then None
    else if Changed(st, seen) then if atStable || SkipsSteps(st, seen) then Some(|seen.steps|) else Some(0)
    else if Promotes(st, seen) then Some(|seen.steps|)
    else if IsAborted(st, seen) then if atStable then Some(|seen.steps|) else Some(0)
    else
      Some((if Forced(st, seen) then |seen.steps| else StepIndex(st)) + (if CompletesStep(st, seen) then 1 else 0))
  }

  /** The pass pauses the rollout for a pause step. */
  predicate AddsPause(st: Status, seen: Seen) {
    && !seen.progress.specPaused && !st.promoteFull
    && CurrentStep(st, seen).Some? && CurrentStep(st, seen).value.Pause?
    && PausedAt(st) == None && !st.pauses.controllerPause
  }

  /** The reasons to pause that a pass adds. It comes to the pause step only if nothing else paused it, or scaled. */
  function ReasonsAdded(st: Status, seen: Seen): seq<Reason> {
    if Changed(st, seen) then []
    else if seen.asked == [] && seen.scaled && AddsPause(st, seen) then [CanaryPauseStep]
    else seen.asked
  }

  function ReasonsRemoved(st: Status, seen: Seen): seq<Reason> {
    if Advances(st, seen) then [CanaryPauseStep] else []
  }

  function PausesAfter(st: Status, seen: Seen): PauseStatus {
    var restarts := Changed(st, seen) || Promotes(st, seen);
    Written(st.pauses, NO_PAUSE, ReasonsAdded(st, seen), ReasonsRemoved(st, seen), restarts || Forced(st, seen),
            (!Changed(st, seen) && seen.addAbort) || seen.deadlineAbort, restarts || RemovesAbort(st, seen),
            seen.savedAt)
  }

  /** The status a complete reconcile leaves. */
  function Sync(st: Status, seen: Seen): Status {
    var restarts := Changed(st, seen) || Promotes(st, seen);
    Status(if !Changed(st, seen) && Promotes(st, seen) then Some(seen.desired.hash) else st.stableRS,
           Some(seen.desired.hash), Some(seen.steps), IndexAfter(st, seen), st.promoteFull && !restarts,
           PausesAfter(st, seen))
  }

  /** A reconcile that only follows a change of the replica count. */
  function SyncReplicasOnly(st: Status, deadlineAbort: bool, savedAt: int): Status {
    var removeAbort := st.stableRS == st.currentPodHash && st.pauses.abort;
    st.(pauses := Written(st.pauses, st.pauses, [], [], false, deadlineAbort, removeAbort, savedAt))
  }

  class CanaryRollout {
    var status: Status

    constructor (stored: Status)
      ensures status == stored
    {
      status := stored;
    }

    method CompletedCurrentCanaryStep(seen: Seen) returns (completed: bool)
      ensures completed <==> CompletesStep(status, seen)
    {
      if seen.progress.specPaused || CurrentStep(status, seen) == None {
        return false;
      }
      return StepCompleted(CurrentStep(status, seen).value, status, seen.progress);
    }

    /** The stage of the pause steps. */
    method ReconcileCanaryPause(ctx: PauseContext, seen: Seen)
      modifies ctx`addPauseReasons
      ensures ctx.addPauseReasons ==
        old(ctx.addPauseReasons) + (if AddsPause(status, seen) then [CanaryPauseStep] else [])
    {
      if seen.progress.specPaused || status.promoteFull || seen.steps == [] {
        return;
      }
      if |seen.steps| <= StepIndex(status) || !seen.steps[StepIndex(status)].Pause? {
        return;
      }
      if PausedAt(status) == None && !status.pauses.controllerPause {
        ctx.AddPauseCondition(CanaryPauseStep);
      }
    }

    /** The stages that pause or abort the rollout. */
    method RunStages(ctx: PauseContext, seen: Seen)
      requires !ctx.HasAddPause() && !ctx.addAbort && !Changed(status, seen)
      modifies ctx`addPauseReasons, ctx`addAbort
      ensures ctx.addPauseReasons == ReasonsAdded(status, seen) && ctx.addAbort == seen.addAbort
    {
      hide AddsPause, Changed;
      for i := 0 to |seen.asked|
        invariant ctx.addPauseReasons == seen.asked[..i] && !ctx.addAbort
      {
        ctx.AddPauseCondition(seen.asked[i]);
      }
      if seen.addAbort {
        ctx.AddAbort();
      }
      if !ctx.HasAddPause() && seen.scaled {
        ReconcileCanaryPause(ctx, seen);
      }
    }

    method ShouldFullPromote(ctx: PauseContext, seen: Seen) returns (promote: bool)
      requires ctx.IsAborted() == IsAborted(status, seen)
      ensures promote <==> Promotes(status, seen)
    {
      hide IsAborted, WithinWindow;
      if seen.stable == None {
        return true;
      }
      if ctx.IsAborted() || !Ready(seen) {
        return false;
      }
      if status.promoteFull {
        return true;
      }
      var within := IsRollbackWithinWindow(seen.all, seen.desired, seen.stable, seen.window);
      if IsRollback(seen.desired, seen.stable) && (within || seen.stable.value.hash == seen.desired.hash) {
        return true;
      }
      return seen.steps == [] || StepIndex(status) == |seen.steps|;
    }

    /** Where a reconcile that neither restarts nor promotes leaves the index, from where it is or was forced to. */
    method NextIndex(ctx: PauseContext, seen: Seen, index: Option<nat>) returns (next: Option<nat>)
      requires ctx.IsAborted() == IsAborted(status, seen) && ctx.removePauseReasons == []
      requires index == None <==> seen.steps == []
      requires index.Some? ==> index.value == if Forced(status, seen) then |seen.steps| else StepIndex(status)
      requires !Changed(status, seen) && !Promotes(status, seen)
      modifies ctx`removePauseReasons
      ensures next == IndexAfter(status, seen) && ctx.removePauseReasons == ReasonsRemoved(status, seen)
    {
      hide Changed, Promotes, IsAborted, CompletesStep, Forced;
      if ctx.IsAborted() {
        var atStable := status.stableRS == Some(seen.desired.hash);
        return if seen.steps == [] then None else if atStable then Some(|seen.steps|) else Some(0);
      }
      var completed := CompletedCurrentCanaryStep(seen);
      if completed {
        OnlyWithSteps(status, seen);
        ctx.RemovePauseCondition(CanaryPauseStep);
        assert ctx.removePauseReasons == [CanaryPauseStep];
        return Some(index.value + 1);
      }
      return index;
    }

    /** Write the decisions about pauses and aborts, to which the progress deadline may add an abort, and the rest. */
    method Persist(ctx: PauseContext, seen: Seen, newStatus: Status)
      modifies this, ctx`addAbort
      ensures status == newStatus.(pauses :=
        Written(ctx.stored, NO_PAUSE, ctx.addPauseReasons, ctx.removePauseReasons, ctx.clearPauseConditions,
                old(ctx.addAbort) || seen.deadlineAbort, ctx.removeAbort, seen.savedAt))
    {
      if seen.deadlineAbort && !ctx.IsAborted() {
        ctx.AddAbort();
      }
      var pauses := ctx.CalculatePauseStatus(NO_PAUSE, seen.savedAt);
      status := newStatus.(pauses := pauses);
    }

    /** The status sync at the end of a reconcile that meets a change of the template or the steps. */
    method SyncChanged(ctx: PauseContext, seen: Seen)
      requires ctx.stored == status.pauses && Changed(status, seen)
      requires ctx.addPauseReasons == ctx.removePauseReasons == [] && !ctx.addAbort
      modifies this, ctx
      ensures status == Sync(old(status), seen)
    {
      hide Changed, Written, Promotes, Forced, SkipsSteps;
      ctx.ClearPauseConditions();
      ctx.RemoveAbort();
      var hash, end := Some(seen.desired.hash), Some(|seen.steps|);
      var index := if seen.steps == [] then None
                   else if status.stableRS == hash || SkipsSteps(status, seen) then end else Some(0);
      Persist(ctx, seen,
              status.(currentPodHash := hash, steps := Some(seen.steps), index := index, promoteFull := false));
    }

    /** The rest of the status sync, once it is decided whether the desired ReplicaSet becomes stable. `index` is the
        index as it was, or was forced to. */
    method SyncUnchanged(ctx: PauseContext, seen: Seen, index: Option<nat>, promote: bool)
      requires ctx.stored == status.pauses && ctx.addPauseReasons == ReasonsAdded(status, seen)
      requires ctx.removePauseReasons == [] && ctx.clearPauseConditions == Forced(status, seen)
      requires ctx.addAbort == seen.addAbort && ctx.removeAbort == RemovesAbort(status, seen)
      requires promote == Promotes(status, seen) && !Changed(status, seen)
      requires index == None <==> seen.steps == []
      requires index.Some? ==> index.value == if Forced(status, seen) then |seen.steps| else StepIndex(status)
      modifies this, ctx
      ensures status == Sync(old(status), seen)
    {
      hide Changed, ReasonsAdded, Written, Promotes, Forced, CompletesStep;
      NothingRemovedEarly(status, seen);
      var hash := Some(seen.desired.hash);
      if promote {
        ctx.ClearPauseConditions();
        ctx.RemoveAbort();
        var end := if seen.steps == [] then None else Some(|seen.steps|);
        Persist(ctx, seen, Status.Status(hash, hash, Some(seen.steps), end, false, status.pauses));
      } else {
        var next := NextIndex(ctx, seen, index);
        Persist(ctx, seen, status.(currentPodHash := hash, steps := Some(seen.steps), index := next));
      }
    }

    /** The status sync at the end of a reconcile. */
    method SyncRolloutStatus(ctx: PauseContext, seen: Seen)
      requires ctx.stored == status.pauses && ctx.addPauseReasons == ReasonsAdded(status, seen)
      requires ctx.removePauseReasons == [] && !ctx.clearPauseConditions
      requires ctx.addAbort == (!Changed(status, seen) && seen.addAbort)
      requires ctx.removeAbort == (status.stableRS == status.currentPodHash && status.pauses.abort)
      modifies this, ctx
      ensures status == Sync(old(status), seen)
    {
      hide Changed, ReasonsAdded, Sync, Promotes, WithinWindow;
      if Changed(status, seen) {
        NothingAdded(status, seen);
        SyncChanged(ctx, seen);
        return;
      }
      var within := IsRollbackWithinWindow(seen.all, seen.desired, seen.stable, seen.window);
      var index := if seen.steps == [] then None else Some(StepIndex(status));
      if status.promoteFull || within {
        ctx.ClearPauseConditions();
        ctx.RemoveAbort();
        index := if seen.steps == [] then None else Some(|seen.steps|);
      }
      var promote := ShouldFullPromote(ctx, seen);
      SyncUnchanged(ctx, seen, index, promote);
    }

    /** One complete reconcile. */
    method Reconcile(seen: Seen)
      modifies this
      ensures status == Sync(old(status), seen)
    {
      hide Changed, ReasonsAdded, Sync;
      var ctx := new PauseContext(status.pauses);
      if status.stableRS == status.currentPodHash && ctx.IsAborted() {
        ctx.RemoveAbort();
      }
      var changed := Changed(status, seen);
      if changed {
        NothingAdded(status, seen);
      } else {
        RunStages(ctx, seen);
      }
      SyncRolloutStatus(ctx, seen);
    }
  }

  lemma {:induction false} NothingAdded(st: Status, seen: Seen)
    requires Changed(st, seen)
    ensures ReasonsAdded(st, seen) == []
  {
  }

  lemma {:induction false} NothingRemovedEarly(st: Status, seen: Seen)
    ensures Changed(st, seen) || Promotes(st, seen) ==> ReasonsRemoved(st, seen) == []
  {
  }

  lemma {:induction false} OnlyWithSteps(st: Status, seen: Seen)
    requires CompletesStep(st, seen)
    ensures seen.steps != []
  {
  }
}
