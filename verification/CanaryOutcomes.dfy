/** What one reconcile of a canary rollout comes to, told from what it found: which step is left and why, when the steps
    start anew, when the new version becomes stable, and what is paused and aborted. Nothing the controller decides with
    is used to say it. */
module CanaryOutcomes {
  import opened Prelude
  import opened AnalysisTypes
  import opened PauseContexts
  import opened PauseOutcomes
  import opened Rollback
  import opened RollbackOutcomes
  import opened CanaryPromotion

  // ---------------------------------------------------------------------------------------------
  // What a reconcile found

  /** The rollout goes back to a revision older than the stable one, within the window. */
  predicate GoesBackWithinWindow(seen: Seen) {
    GoesBackWithin(seen.all, seen.desired, seen.stable, seen.window)
  }

  /** Neither the template nor the steps changed since the stored status. */
  predicate SameVersion(st: Status, seen: Seen) {
    st.steps == Some(seen.steps) && st.currentPodHash in {None, Some(seen.desired.hash)}
  }

  predicate InAHurry(st: Status, seen: Seen) {
    GoesBackWithinWindow(seen) || st.promoteFull
  }

  /** As many pods of the desired ReplicaSet are available as the rollout or its threshold asks for. */
  predicate EnoughPods(seen: Seen) {
    var available := seen.view.available;
    available >= seen.replicas
    || match seen.threshold
       case None => false
       case Some(Percentage(value)) => value >= 0 && 100 * available >= value * seen.replicas
       case Some(Pods(value)) => value >= 0 && available >= value
  }

  /** An abort that is in effect: one stored while an update is under way, or with none stored, one asked for now. */
  predicate Aborting(st: Status, seen: Seen) {
    && !InAHurry(st, seen)
    && (if st.pauses.abort then st.stableRS != st.currentPodHash else seen.addAbort)
  }

  /** The desired ReplicaSet is made the stable one. */
  predicate BecomesStable(st: Status, seen: Seen) {
    && SameVersion(st, seen)
    && match seen.stable
       case None => true
       case Some(stable) =>
         && EnoughPods(seen) && !Aborting(st, seen)
         && (|| InAHurry(st, seen) || stable.hash == seen.desired.hash
             || seen.steps == [] || StepIndex(st) == |seen.steps|)
  }

  /** The steps go on from where they are. */
  predicate GoesOnWithSteps(st: Status, seen: Seen) {
    SameVersion(st, seen) && !BecomesStable(st, seen) && !Aborting(st, seen)
  }

  /** The rollout is not paused for a step. */
  predicate NoStepPause(conditions: seq<Condition>) {
    NotPaused(conditions, CanaryPauseStep)
  }

  /** What has to have come about for each kind of step before it is done. */
  predicate IsDone(step: Step, st: Status, p: Progress) {
    && (step.SetWeight? ==> p.atDesired && (p.verified.Some? ==> p.verified.value))
    && (step.SetCanaryScale? ==> p.atDesired)
    && (step.Experiment? ==> p.experiment.Some? && p.experiment.value.Successful?)
    && (step.Analysis? ==> p.stepRun.Some? && p.stepRun.value.Successful?)
    && (step.Plugin? ==> p.pluginDone)
    && (step.Pause? ==>
          if NoStepPause(st.pauses.conditions) then st.pauses.controllerPause
          else step.duration.Some? && PausedFor(st.pauses.conditions, CanaryPauseStep, step.duration.value, p.now))
  }

  /** The rollout stands at a step that is done, and its user has not paused it. */
  predicate StepIsDone(st: Status, seen: Seen) {
    StepIndex(st) < |seen.steps| && !seen.progress.specPaused
    && IsDone(seen.steps[StepIndex(st)], st, seen.progress)
  }

  // ---------------------------------------------------------------------------------------------
  // What the controller decides with

  lemma {:induction false} VersionTells(st: Status, seen: Seen)
    ensures Changed(st, seen) <==> !SameVersion(st, seen)
  {
  }

  lemma {:induction false} PodsTell(seen: Seen)
    ensures Ready(seen) <==> EnoughPods(seen)
  {
  }

  lemma {:induction false} AbortTells(st: Status, seen: Seen)
    ensures IsAborted(st, seen) <==> Aborting(st, seen)
    ensures Forced(st, seen) <==> InAHurry(st, seen)
  {
    hide WithinWindow, GoesBackWithin;
    WindowTells(seen.all, seen.desired, seen.stable, seen.window);
  }

  lemma {:induction false} PromotionTells(st: Status, seen: Seen)
    requires !Changed(st, seen)
    ensures Promotes(st, seen) <==> BecomesStable(st, seen)
  {
    hide Ready, EnoughPods, IsAborted, Aborting, GoesBackWithin, IsFastRollback, WithinWindow, Changed, SameVersion;
    WindowTells(seen.all, seen.desired, seen.stable, seen.window);
    FastTells(seen.all, seen.desired, seen.stable, seen.window, false);
    VersionTells(st, seen);
    PodsTell(seen);
    AbortTells(st, seen);
  }

  lemma {:induction false} StepTells(st: Status, seen: Seen)
    ensures CompletesStep(st, seen) <==> StepIsDone(st, seen)
  {
    hide StartOf, NotPaused, PausedFor;
    PauseTells(st.pauses.conditions, CanaryPauseStep);
    if StepIndex(st) < |seen.steps| {
      var step := seen.steps[StepIndex(st)];
      if step.Pause? && step.duration.Some? {
        PausedForTells(st.pauses.conditions, CanaryPauseStep, step.duration.value, seen.progress.now);
      }
      assert StepCompleted(step, st, seen.progress) <==> IsDone(step, st, seen.progress);
    }
  }

  // ---------------------------------------------------------------------------------------------
  // What a reconcile leaves

  /** The desired ReplicaSet becomes stable exactly under its conditions, and otherwise the stable one stays. A request
      for full promotion is met by that, and dropped when the template or the steps change. */
  lemma {:induction false} StableOutcome(st: Status, seen: Seen)
    ensures
      var st' := Sync(st, seen);
      && st'.currentPodHash == Some(seen.desired.hash) && st'.steps == Some(seen.steps)
      && (BecomesStable(st, seen) ==> st'.stableRS == Some(seen.desired.hash))
      && (!BecomesStable(st, seen) ==> st'.stableRS == st.stableRS)
      && (st'.promoteFull <==> st.promoteFull && SameVersion(st, seen) && !BecomesStable(st, seen))
  {
    hide Promotes, BecomesStable, Changed, SameVersion, PausesAfter, IndexAfter;
    VersionTells(st, seen);
    OnlySameVersion(st, seen);
    if !Changed(st, seen) {
      PromotionTells(st, seen);
    }
  }

  lemma {:induction false} OnlySameVersion(st: Status, seen: Seen)
    ensures BecomesStable(st, seen) || GoesOnWithSteps(st, seen) ==> SameVersion(st, seen)
  {
  }

  /** The index after a change, a promotion and an abort: the steps start anew, unless there is nothing to be done or
      the change goes back to a ReplicaSet of the window that still runs. */
  lemma {:induction false} IndexStartsAnew(st: Status, seen: Seen)
    requires seen.steps != [] && !GoesOnWithSteps(st, seen)
    ensures
      var st', atStable := Sync(st, seen), st.stableRS == Some(seen.desired.hash);
      st'.index ==
        if BecomesStable(st, seen) || atStable || (!SameVersion(st, seen) && GoesBackWithinWindow(seen) && seen.active)
        then Some(|seen.steps|) else Some(0)
  {
    hide Promotes, BecomesStable, Changed, SameVersion, PausesAfter, GoesBackWithin, WithinWindow,
      IsAborted, Aborting, CompletesStep;
    WindowTells(seen.all, seen.desired, seen.stable, seen.window);
    VersionTells(st, seen);
    AbortTells(st, seen);
    OnlySameVersion(st, seen);
    if !Changed(st, seen) {
      PromotionTells(st, seen);
    }
  }

  /** A step is left exactly when it is done, for the next one; the index does not move otherwise. In a hurry it counts
      from the end of the steps. */
  lemma {:induction false} StepLeftIff(st: Status, seen: Seen)
    requires seen.steps != [] && GoesOnWithSteps(st, seen)
    ensures
      var from := if InAHurry(st, seen) then |seen.steps| else StepIndex(st);
      Sync(st, seen).index == if StepIsDone(st, seen) then Some(from + 1) else Some(from)
  {
    hide Promotes, BecomesStable, Changed, SameVersion, PausesAfter, IsAborted, Aborting, CompletesStep, StepIsDone,
      Forced, InAHurry;
    VersionTells(st, seen);
    AbortTells(st, seen);
    PromotionTells(st, seen);
    StepTells(st, seen);
  }

  lemma {:induction false} NoStepsNoIndex(st: Status, seen: Seen)
    ensures seen.steps == [] <==> Sync(st, seen).index == None
  {
    hide Promotes, Changed, PausesAfter, IsAborted, CompletesStep, Forced, SkipsSteps;
  }

  /** The reasons for which a reconcile pauses the rollout: those that experiments and analysis gave, or, without any,
      that it stands at a pause step for which nothing has paused it yet, with nothing left to scale. */
  predicate AsksToPause(st: Status, seen: Seen, reason: Reason) {
    || reason in seen.asked
    || (&& reason == CanaryPauseStep && seen.asked == [] && seen.scaled && !seen.progress.specPaused && !st.promoteFull
        && StepIndex(st) < |seen.steps| && seen.steps[StepIndex(st)].Pause?
        && NoStepPause(st.pauses.conditions) && !st.pauses.controllerPause)
  }

  lemma {:induction false} ReasonsTell(st: Status, seen: Seen, reason: Reason)
    requires SameVersion(st, seen)
    ensures reason in ReasonsAdded(st, seen) <==> AsksToPause(st, seen, reason)
    ensures GoesOnWithSteps(st, seen) ==>
      (reason in ReasonsRemoved(st, seen) <==> reason == CanaryPauseStep && StepIsDone(st, seen))
  {
    hide Promotes, BecomesStable, Changed, SameVersion, IsAborted, Aborting, CompletesStep, StepIsDone, StartOf,
      NotPaused;
    VersionTells(st, seen);
    AbortTells(st, seen);
    PromotionTells(st, seen);
    StepTells(st, seen);
    PauseTells(st.pauses.conditions, CanaryPauseStep);
  }

  /** The rollout is aborted afterwards if the progress deadline asked for it, or analysis or a plugin did while
      nothing changed, or an abort in effect stays so. It keeps the time of its first record. */
  lemma {:induction false} AbortOutcome(st: Status, seen: Seen)
    ensures
      var before, after := st.pauses, Sync(st, seen).pauses;
      && (after.abort <==>
            || seen.deadlineAbort
            || (seen.addAbort && SameVersion(st, seen))
            || (before.abort && Aborting(st, seen) && SameVersion(st, seen) && !BecomesStable(st, seen)))
      && after.abortedAt ==
           if !after.abort then None else if before.abortedAt.Some? then before.abortedAt else Some(seen.savedAt)
  {
    hide Promotes, BecomesStable, Changed, SameVersion, IsAborted, InAHurry, Forced, ReasonsAdded, ReasonsRemoved, Kept,
      Added, IndexAfter;
    VersionTells(st, seen);
    AbortTells(st, seen);
    if SameVersion(st, seen) {
      PromotionTells(st, seen);
    }
  }

  /** A new reason to pause. */
  predicate IsNew(st: Status, seen: Seen, reason: Reason) {
    AsksToPause(st, seen, reason)
    && forall k :: 0 <= k < |st.pauses.conditions| ==> st.pauses.conditions[k].reason != reason
  }

  /** The pauses of a status survive, as far as the rollout as a whole is concerned. */
  predicate KeepsPauses(st: Status, seen: Seen) {
    GoesOnWithSteps(st, seen) && !InAHurry(st, seen) && !seen.addAbort && !seen.deadlineAbort
  }

  lemma {:induction false} PausesTell(st: Status, seen: Seen)
    ensures
      var conditions := Kept(st.pauses.conditions, ReasonsRemoved(st, seen))
        + Added(st.pauses.conditions, ReasonsAdded(st, seen), seen.savedAt);
      PausesAfter(st, seen).conditions == (if KeepsPauses(st, seen) then conditions else [])
    ensures PausesAfter(st, seen).controllerPause <==>
      && PausesAfter(st, seen).conditions != []
      && (st.pauses.controllerPause || Added(st.pauses.conditions, ReasonsAdded(st, seen), seen.savedAt) != [])
  {
    hide Promotes, BecomesStable, Changed, SameVersion, IsAborted, InAHurry, Forced, ReasonsAdded, ReasonsRemoved, Kept,
      Added;
    VersionTells(st, seen);
    AbortTells(st, seen);
    OnlySameVersion(st, seen);
    if SameVersion(st, seen) {
      PromotionTells(st, seen);
    }
  }

  lemma {:induction false} NewTells(st: Status, seen: Seen, reason: Reason)
    requires SameVersion(st, seen)
    ensures IsNew(st, seen, reason) <==>
      reason in ReasonsAdded(st, seen) && !HasReason(st.pauses.conditions, reason)
  {
    hide AsksToPause, ReasonsAdded, SameVersion;
    ReasonsTell(st, seen, reason);
  }

  /** A reconcile that goes on, without a hurry and without an abort, keeps the pauses but that of a step that is done,
      and adds one for each new reason; the status says that it is paused as soon as there is a new one. Every other
      reconcile clears the pauses. */
  lemma {:induction false} PausesOutcome(st: Status, seen: Seen)
    ensures KeepsPauses(st, seen) ==>
      forall c :: c in Sync(st, seen).pauses.conditions <==>
        || (c in st.pauses.conditions && !(c.reason == CanaryPauseStep && StepIsDone(st, seen)))
        || (c.startTime == seen.savedAt && IsNew(st, seen, c.reason))
    ensures !KeepsPauses(st, seen) ==> Sync(st, seen).pauses.conditions == []
    ensures Sync(st, seen).pauses.controllerPause <==>
      && Sync(st, seen).pauses.conditions != []
      && (st.pauses.controllerPause || exists reason :: IsNew(st, seen, reason))
  {
    hide PausesAfter, GoesOnWithSteps, InAHurry, ReasonsAdded, ReasonsRemoved, Kept, Added, IndexAfter, StepIsDone,
      HasReason, IsNew;
    PausesTell(st, seen);
    if KeepsPauses(st, seen) {
      OnlySameVersion(st, seen);
      var added, removed := ReasonsAdded(st, seen), ReasonsRemoved(st, seen);
      forall reason
        ensures IsNew(st, seen, reason) <==> reason in added && !HasReason(st.pauses.conditions, reason)
        ensures reason in removed <==> reason == CanaryPauseStep && StepIsDone(st, seen)
      {
        NewTells(st, seen, reason);
        ReasonsTell(st, seen, reason);
      }
      KeptMembers(st.pauses.conditions, removed);
      AddedMembers(st.pauses.conditions, added, seen.savedAt);
      var conditions := Added(st.pauses.conditions, added, seen.savedAt);
      if conditions != [] {
        assert conditions[0] in conditions && IsNew(st, seen, conditions[0].reason);
      }
      if reason :| IsNew(st, seen, reason) {
        assert Condition(reason, seen.savedAt) in conditions;
      }
    }
  }

  /** A reconcile that only follows the replica count can only abort, or drop an abort of a rollout that is back on its
      stable version. */
  lemma {:induction false} ScaledOutcome(st: Status, deadlineAbort: bool, savedAt: int)
    ensures
      var st' := SyncReplicasOnly(st, deadlineAbort, savedAt);
      && st' == st.(pauses := st'.pauses)
      && st'.pauses.conditions == st.pauses.conditions && st'.pauses.controllerPause == st.pauses.controllerPause
      && (st'.pauses.abort <==> deadlineAbort || (st.pauses.abort && st.stableRS != st.currentPodHash))
  {
    NothingRemoved(st.pauses.conditions);
  }
}
