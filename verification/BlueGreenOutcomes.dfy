/** What one pass of a blue-green rollout comes to, told from what it found: where live traffic goes, when the new
    version becomes stable, which analysis runs are started, kept and dropped, and what is paused and aborted. Nothing
    the controller decides with is used to say it. */
module BlueGreenOutcomes {
  import opened Prelude
  import opened AnalysisTypes
  import opened PauseContexts
  import opened PauseOutcomes
  import opened Rollback
  import opened RollbackOutcomes
  import opened BlueGreen

  // ---------------------------------------------------------------------------------------------
  // What a pass found

  /** The template changed since the stored status. */
  predicate MeetsChange(st: Status, seen: Seen) {
    st.currentPodHash !in {"", seen.desired.hash}
  }

  predicate GoesBackWithinWindow(seen: Seen) {
    GoesBackWithin(seen.all, seen.desired, seen.stable, seen.spec.window)
  }

  predicate GoesBack(seen: Seen) {
    GoesBackFast(seen.all, seen.desired, seen.stable, seen.spec.window, seen.withinDelay)
  }

  predicate OnHold(st: Status, seen: Seen) {
    !NotPaused(st.pauses.conditions, InconclusiveAnalysis) || seen.spec.paused
  }

  /** Nothing is waited for: a full promotion, a way back, or a service that already selects the desired version, or
      nothing. */
  predicate GoesStraight(st: Status, active: Option<string>, seen: Seen) {
    active == None || active == Some(seen.desired.hash) || GoesBack(seen) || st.promoteFull
  }

  predicate IsManual(spec: Spec) {
    spec.autoPromotionEnabled.Some? && !spec.autoPromotionEnabled.value
  }

  /** The preview was scaled up, or the pause is over: somebody resumed the rollout when promotion is manual, or else it
      lasted its time. */
  predicate WaitIsOver(st: Status, seen: Seen) {
    || st.checkpoint
    || (if IsManual(seen.spec) then NotPaused(st.pauses.conditions, BlueGreenPause) && st.pauses.controllerPause
        else
          || PausedFor(st.pauses.conditions, BlueGreenPause, seen.spec.autoPromotionSeconds, seen.now)
          || seen.spec.autoPromotionSeconds == 0)
  }

  predicate Exists(recorded: Option<string>, phase: Option<Phase>) {
    phase.Some? && recorded.Some?
  }

  /** An analysis that is not configured, or whose recorded run was successful. */
  predicate HasSucceeded(spec: AnalysisSpec, recorded: Option<string>, phase: Option<Phase>) {
    spec.NotConfigured? || (Exists(recorded, phase) && phase.value.Successful?)
  }

  /** The pass may begin or end the pause before the switch. */
  predicate LooksAtPause(st: Status, seen: Seen) {
    seen.readyForPause && !OnHold(st, seen) && !st.pauses.abort && !MeetsChange(st, seen)
  }

  predicate BeginsPause(st: Status, active: Option<string>, seen: Seen) {
    && LooksAtPause(st, seen) && !GoesStraight(st, active, seen) && !st.checkpoint
    && (IsManual(seen.spec) || seen.spec.autoPromotionSeconds > 0)
    && HasSucceeded(seen.spec.pre, st.pre, seen.prePhase)
    && NotPaused(st.pauses.conditions, BlueGreenPause) && !st.pauses.controllerPause
  }

  predicate EndsPause(st: Status, active: Option<string>, seen: Seen) {
    && LooksAtPause(st, seen)
    && (|| GoesStraight(st, active, seen) || st.checkpoint
        || (!IsManual(seen.spec) && seen.spec.autoPromotionSeconds == 0)
        || (&& HasSucceeded(seen.spec.pre, st.pre, seen.prePhase) && WaitIsOver(st, seen)
            && !NotPaused(st.pauses.conditions, BlueGreenPause)))
  }

  /** Analysis does not matter: there is no update, it is aborted, or it goes straight. */
  predicate NoAnalysis(st: Status, seen: Seen) {
    st.pauses.abort || st.stableRS == "" || st.stableRS == st.currentPodHash || GoesBack(seen) || st.promoteFull
  }

  predicate IsAskedFor(spec: AnalysisSpec) {
    spec.Configured? && spec.templates > 0
  }

  /** A run is made once more: an inconclusive one after the rollout was resumed, any after an abort was retried. */
  predicate IsRepeated(st: Status, phase: Phase) {
    if && st.pauses.controllerPause && NotPaused(st.pauses.conditions, BlueGreenPause)
       && NotPaused(st.pauses.conditions, CanaryPauseStep) then phase.Inconclusive?
    else st.pauses.abortedAt.Some?
  }

  /** This pass makes a pre-promotion run for the desired hash: before the switch, once the preview is there. */
  predicate StartsPre(st: Status, seen: Seen) {
    && IsAskedFor(seen.spec.pre) && !NoAnalysis(st, seen) && !MeetsChange(st, seen)
    && NotPaused(st.pauses.conditions, InconclusiveAnalysis)
    && st.stableRS != seen.desired.hash && st.activeSelector !in {"", seen.desired.hash}
    && (if Exists(st.pre, seen.prePhase) then IsRepeated(st, seen.prePhase.value)
        else if seen.spec.previewCount.Some? then seen.previewReady else seen.saturated)
  }

  /** This pass makes a post-promotion run for the desired hash: after the switch, once its targets are verified. */
  predicate StartsPost(st: Status, seen: Seen) {
    && IsAskedFor(seen.spec.post) && !NoAnalysis(st, seen) && !MeetsChange(st, seen)
    && NotPaused(st.pauses.conditions, InconclusiveAnalysis)
    && st.stableRS != seen.desired.hash && st.activeSelector == seen.desired.hash && seen.targetsVerified
    && (if Exists(st.post, seen.postPhase) then IsRepeated(st, seen.postPhase.value) else seen.saturated)
  }

  /** A recorded run of an analysis that is asked for, which this pass looks at and does not replace. */
  predicate CountsPre(st: Status, seen: Seen) {
    && Exists(st.pre, seen.prePhase) && IsAskedFor(seen.spec.pre) && !NoAnalysis(st, seen) && !MeetsChange(st, seen)
    && !StartsPre(st, seen)
  }

  predicate CountsPost(st: Status, seen: Seen) {
    && Exists(st.post, seen.postPhase) && IsAskedFor(seen.spec.post) && !NoAnalysis(st, seen) && !MeetsChange(st, seen)
    && !StartsPost(st, seen)
  }

  predicate AnalysisFails(st: Status, seen: Seen) {
    || (CountsPre(st, seen) && (seen.prePhase.value.Failed? || seen.prePhase.value.Error?))
    || (CountsPost(st, seen) && (seen.postPhase.value.Failed? || seen.postPhase.value.Error?))
  }

  predicate AnalysisIsUnclear(st: Status, seen: Seen) {
    || (CountsPre(st, seen) && seen.prePhase.value.Inconclusive?)
    || (CountsPost(st, seen) && seen.postPhase.value.Inconclusive?)
  }

  /** An abort that is in effect: one stored while an update is under way, or with none stored, one of the analysis. */
  predicate Aborting(st: Status, seen: Seen) {
    && !MeetsChange(st, seen) && !st.promoteFull && !GoesBackWithinWindow(seen)
    && (if st.pauses.abort then st.stableRS != st.currentPodHash else AnalysisFails(st, seen))
  }

  /** The analysis succeeded as far as the end of the pass knows; runs that are not looked at stay as they are. */
  predicate PreSucceeded(st: Status, seen: Seen) {
    && HasSucceeded(seen.spec.pre, st.pre, seen.prePhase)
    && (seen.spec.pre.NotConfigured? || MeetsChange(st, seen) || NoAnalysis(st, seen) || CountsPre(st, seen))
  }

  predicate PostSucceeded(st: Status, seen: Seen) {
    && HasSucceeded(seen.spec.post, st.post, seen.postPhase)
    && (seen.spec.post.NotConfigured? || MeetsChange(st, seen) || NoAnalysis(st, seen) || CountsPost(st, seen))
  }

  /** The desired ReplicaSet is made the stable one; `active` is the selector after the switch. */
  predicate BecomesStable(st: Status, active: Option<string>, seen: Seen) {
    || seen.stable.None? || active == None || active == Some("")
    || (&& active == Some(seen.desired.hash)
        && (seen.targetsVerified || MeetsChange(st, seen))
        && (GoesBack(seen) || st.promoteFull || (PostSucceeded(st, seen) && !Aborting(st, seen))))
  }

  // ---------------------------------------------------------------------------------------------
  // What the controller decides with

  lemma {:induction false} FoundTells(st: Status, seen: Seen)
    ensures Changed(st, seen) <==> MeetsChange(st, seen)
    ensures FastRollback(seen) <==> GoesBack(seen)
    ensures Within(seen) <==> GoesBackWithinWindow(seen)
    ensures Halted(st, seen) <==> OnHold(st, seen)
  {
    hide IsFastRollback, WithinWindow, GoesBackFast, GoesBackWithin, HasReason, NotPaused;
    WindowTells(seen.all, seen.desired, seen.stable, seen.spec.window);
    FastTells(seen.all, seen.desired, seen.stable, seen.spec.window, seen.withinDelay);
    PauseTells(st.pauses.conditions, InconclusiveAnalysis);
  }

  lemma {:induction false} WaitTells(st: Status, seen: Seen)
    ensures PauseCompleted(st, seen, false) <==> WaitIsOver(st, seen)
  {
    hide NotPaused, PausedFor, StartOf;
    PauseTells(st.pauses.conditions, BlueGreenPause);
    PausedForTells(st.pauses.conditions, BlueGreenPause, seen.spec.autoPromotionSeconds, seen.now);
  }

  lemma {:induction false} StraightTells(st: Status, active: Option<string>, seen: Seen)
    ensures FastTracked(st, active, seen) <==> GoesStraight(st, active, seen)
    ensures NeedsControllerPause(seen.spec) <==> IsManual(seen.spec) || seen.spec.autoPromotionSeconds > 0
    ensures Passed(seen.spec.pre, st.pre, seen.prePhase) <==> HasSucceeded(seen.spec.pre, st.pre, seen.prePhase)
  {
    hide FastRollback, GoesBack;
    FoundTells(st, seen);
  }

  lemma {:induction false} StageTells(st: Status, active: Option<string>, seen: Seen)
    requires !Changed(st, seen)
    ensures PauseStage(st, active, seen) == AddPause <==> BeginsPause(st, active, seen)
    ensures PauseStage(st, active, seen) == RemovePause <==> EndsPause(st, active, seen)
  {
    hide FastTracked, GoesStraight, Passed, HasSucceeded, PauseCompleted, WaitIsOver, NotPaused, StartOf, Halted,
      OnHold, Changed, MeetsChange;
    FoundTells(st, seen);
    WaitTells(st, seen);
    StraightTells(st, active, seen);
    PauseTells(st.pauses.conditions, BlueGreenPause);
  }

  lemma {:induction false} AnalysisTells(st: Status, seen: Seen)
    ensures CancelsAnalysis(st, seen) <==> NoAnalysis(st, seen)
  {
    hide FastRollback, GoesBack;
    FoundTells(st, seen);
  }

  lemma {:induction false} RepeatTells(st: Status, recorded: Option<string>, phase: Option<Phase>)
    ensures NeedsNewRun(st, Current(recorded, phase), phase) <==>
      (Exists(recorded, phase) ==> IsRepeated(st, phase.value))
  {
    hide NotPaused, StartOf, HasReason;
    PauseTells(st.pauses.conditions, BlueGreenPause);
    PauseTells(st.pauses.conditions, CanaryPauseStep);
  }

  lemma {:induction false} PreTells(st: Status, seen: Seen)
    requires !Changed(st, seen)
    ensures PreAfter(st, seen) ==
      if StartsPre(st, seen) then Run(seen.desired.hash, Unset)
      else if (NoAnalysis(st, seen) && Exists(st.pre, seen.prePhase)) || CountsPre(st, seen) then
        Run(st.pre.value, seen.prePhase.value)
      else NoRun
  {
    hide CancelsAnalysis, NoAnalysis, NeedsNewRun, IsRepeated, NotPaused, HasReason, Changed, MeetsChange;
    FoundTells(st, seen);
    AnalysisTells(st, seen);
    RepeatTells(st, st.pre, seen.prePhase);
    PauseTells(st.pauses.conditions, InconclusiveAnalysis);
  }

  lemma {:induction false} PostTells(st: Status, seen: Seen)
    requires !Changed(st, seen)
    ensures PostAfter(st, seen) ==
      if StartsPost(st, seen) then Run(seen.desired.hash, Unset)
      else if (NoAnalysis(st, seen) && Exists(st.post, seen.postPhase)) || CountsPost(st, seen) then
        Run(st.post.value, seen.postPhase.value)
      else NoRun
  {
    hide CancelsAnalysis, NoAnalysis, NeedsNewRun, IsRepeated, NotPaused, HasReason, Changed, MeetsChange;
    FoundTells(st, seen);
    AnalysisTells(st, seen);
    RepeatTells(st, st.post, seen.postPhase);
    PauseTells(st.pauses.conditions, InconclusiveAnalysis);
  }

  lemma {:induction false} CountingNeedsAnalysis(st: Status, seen: Seen)
    ensures StartsPre(st, seen) || CountsPre(st, seen) || StartsPost(st, seen) || CountsPost(st, seen) ==>
      !NoAnalysis(st, seen) && !MeetsChange(st, seen)
  {
  }

  lemma {:induction false} VerdictsTell(st: Status, seen: Seen)
    ensures AddsAbort(st, seen) <==> AnalysisFails(st, seen)
    ensures !Changed(st, seen) ==> (AnalysisReasons(st, seen) != [] <==> AnalysisIsUnclear(st, seen))
    ensures forall reason :: reason in AnalysisReasons(st, seen) ==> reason == InconclusiveAnalysis
    ensures MeetsChange(st, seen) ==> !AnalysisIsUnclear(st, seen)
  {
    hide PreAfter, PostAfter, CancelsAnalysis, NoAnalysis, StartsPre, StartsPost, CountsPre, CountsPost, Changed,
      MeetsChange;
    FoundTells(st, seen);
    AnalysisTells(st, seen);
    CountingNeedsAnalysis(st, seen);
    CountingExists(st, seen);
    if !Changed(st, seen) {
      PreTells(st, seen);
      PostTells(st, seen);
    }
  }

  lemma {:induction false} CountingExists(st: Status, seen: Seen)
    ensures CountsPre(st, seen) ==> Exists(st.pre, seen.prePhase) && !StartsPre(st, seen)
    ensures CountsPost(st, seen) ==> Exists(st.post, seen.postPhase) && !StartsPost(st, seen)
  {
  }

  lemma {:induction false} SuccessTells(st: Status, seen: Seen)
    ensures Succeeded(seen.spec.pre, PreKnown(st, seen)) <==> PreSucceeded(st, seen)
    ensures Succeeded(seen.spec.post, PostKnown(st, seen)) <==> PostSucceeded(st, seen)
  {
    hide PreAfter, PostAfter, NoAnalysis, StartsPre, StartsPost, CountsPre, CountsPost, Changed, MeetsChange;
    FoundTells(st, seen);
    CountingNeedsAnalysis(st, seen);
    CountingExists(st, seen);
    if !Changed(st, seen) {
      PreTells(st, seen);
      PostTells(st, seen);
    }
  }

  lemma {:induction false} PromotionTells(st: Status, active: Option<string>, seen: Seen)
    ensures IsAborted(st, seen) <==> Aborting(st, seen)
    ensures Promotes(st, active, seen) <==> BecomesStable(st, active, seen)
  {
    hide PostKnown, Succeeded, PostSucceeded, AddsAbort, AnalysisFails, Changed, MeetsChange, FastRollback, GoesBack,
      Within, GoesBackWithinWindow;
    FoundTells(st, seen);
    VerdictsTell(st, seen);
    SuccessTells(st, seen);
  }

  // ---------------------------------------------------------------------------------------------
  // What a pass leaves

  /** Live traffic stays where it is after a change, on hold, and before the desired ReplicaSet is ready and saturated.
      Otherwise an abort gives it back to the stable hash, and without one it goes to the desired version when nothing
      is waited for, or the wait is over and any pre-promotion analysis was successful. */
  lemma {:induction false} SwitchOutcome(st: Status, active: Option<string>, seen: Seen)
    ensures ActiveAfter(st, active, seen) ==
      if MeetsChange(st, seen) || OnHold(st, seen) || !seen.readyForPause || !seen.saturated then active
      else if st.pauses.abort then Some(st.stableRS)
      else if || GoesStraight(st, active, seen)
              || (WaitIsOver(st, seen) && HasSucceeded(seen.spec.pre, st.pre, seen.prePhase)) then
        Some(seen.desired.hash)
      else active
  {
    hide FastTracked, GoesStraight, Passed, HasSucceeded, PauseStage, BeginsPause, Halted, OnHold, Changed, MeetsChange,
      WaitIsOver;
    FoundTells(st, seen);
    WaitTells(st, seen);
    StraightTells(st, active, seen);
    if !Changed(st, seen) {
      StageTells(st, active, seen);
      BeginsBeforeOver(st, active, seen);
    }
  }

  lemma {:induction false} BeginsBeforeOver(st: Status, active: Option<string>, seen: Seen)
    ensures BeginsPause(st, active, seen) ==> !WaitIsOver(st, seen)
  {
  }

  /** The desired ReplicaSet becomes stable exactly under its conditions; otherwise the stable hash stays. */
  lemma {:induction false} StableOutcome(st: Status, before: Option<string>, active: Option<string>, seen: Seen)
    ensures
      var st' := Sync(st, before, active, seen);
      && st'.currentPodHash == seen.desired.hash
      && st'.activeSelector == (match active case None => "" case Some(hash) => hash)
      && st'.stableRS == (if BecomesStable(st, active, seen) then seen.desired.hash else st.stableRS)
      && (st'.promoteFull <==> st.promoteFull && !MeetsChange(st, seen) && !BecomesStable(st, active, seen))
  {
    hide Promotes, BecomesStable, Changed, MeetsChange, PausesAfter, CheckpointAfter, PreAfter, PostAfter;
    FoundTells(st, seen);
    PromotionTells(st, active, seen);
  }

  /** A run that is started is recorded for the desired hash; a recorded one is kept while it exists, unless the
      template changed or its analysis is looked at and no longer asked for. */
  lemma {:induction false} RunsOutcome(st: Status, before: Option<string>, active: Option<string>, seen: Seen)
    ensures
      var st' := Sync(st, before, active, seen);
      && st'.pre ==
           (if StartsPre(st, seen) then Some(seen.desired.hash)
            else if && Exists(st.pre, seen.prePhase) && !MeetsChange(st, seen)
                    && (NoAnalysis(st, seen) || IsAskedFor(seen.spec.pre)) then st.pre
            else None)
      && st'.post ==
           (if StartsPost(st, seen) then Some(seen.desired.hash)
            else if && Exists(st.post, seen.postPhase) && !MeetsChange(st, seen)
                    && (NoAnalysis(st, seen) || IsAskedFor(seen.spec.post)) then st.post
            else None)
  {
    hide Promotes, Changed, MeetsChange, PausesAfter, CheckpointAfter, PreAfter, PostAfter, NoAnalysis, StartsPre,
      StartsPost;
    FoundTells(st, seen);
    CountingNeedsAnalysis(st, seen);
    if !Changed(st, seen) {
      PreTells(st, seen);
      PostTells(st, seen);
    }
  }

  /** The rollout is aborted afterwards exactly if the progress deadline asked for it, a recorded run of the analysis
      failed, or a stored abort of an update is neither retried by a change nor overtaken by a promotion. */
  lemma {:induction false} AbortOutcome(st: Status, before: Option<string>, active: Option<string>, seen: Seen)
    ensures
      var st' := Sync(st, before, active, seen);
      && (st'.pauses.abort <==>
            || seen.deadlineAbort
            || AnalysisFails(st, seen)
            || (st.pauses.abort && Aborting(st, seen) && !BecomesStable(st, active, seen)))
      && st'.pauses.abortedAt ==
           if !st'.pauses.abort then None
           else if st.pauses.abortedAt.Some? then st.pauses.abortedAt else Some(seen.savedAt)
  {
    hide Promotes, BecomesStable, Changed, MeetsChange, AddsAbort, AnalysisFails, Within, GoesBackWithinWindow,
      CheckpointAfter, PreKnown, PreAfter, PostAfter, ReasonsAdded, ReasonsRemoved, Kept, Added;
    FoundTells(st, seen);
    VerdictsTell(st, seen);
    PromotionTells(st, active, seen);
  }

  /** The reasons for which a pass pauses the rollout. */
  predicate AsksToPause(st: Status, before: Option<string>, seen: Seen, reason: Reason) {
    || (reason.BlueGreenPause? && BeginsPause(st, before, seen))
    || (reason.InconclusiveAnalysis? && AnalysisIsUnclear(st, seen))
  }

  predicate IsNew(st: Status, before: Option<string>, seen: Seen, reason: Reason) {
    AsksToPause(st, before, seen, reason) && NotPaused(st.pauses.conditions, reason)
  }

  /** The pauses survive, as far as the rollout as a whole is concerned. */
  predicate KeepsPauses(st: Status, before: Option<string>, active: Option<string>, seen: Seen) {
    && !MeetsChange(st, seen) && !st.promoteFull && !GoesBackWithinWindow(seen) && !BecomesStable(st, active, seen)
    && !Sync(st, before, active, seen).pauses.abort
  }

  lemma {:induction false} ReasonsTell(st: Status, before: Option<string>, seen: Seen, reason: Reason)
    ensures reason in ReasonsAdded(st, before, seen) <==> AsksToPause(st, before, seen, reason)
    ensures reason in ReasonsRemoved(st, before, seen) <==>
      reason.BlueGreenPause? && EndsPause(st, before, seen) && !MeetsChange(st, seen)
  {
    hide PauseStage, EndsPause, AnalysisReasons, AnalysisIsUnclear, Changed, MeetsChange, GoesStraight, HasSucceeded,
      OnHold;
    FoundTells(st, seen);
    VerdictsTell(st, seen);
    if !Changed(st, seen) {
      StageTells(st, before, seen);
      if AnalysisReasons(st, seen) != [] {
        assert AnalysisReasons(st, seen)[0] in AnalysisReasons(st, seen);
      }
    }
  }

  lemma {:induction false} PausesTell(st: Status, before: Option<string>, active: Option<string>, seen: Seen)
    ensures
      var pauses := Sync(st, before, active, seen).pauses;
      var added := Added(st.pauses.conditions, ReasonsAdded(st, before, seen), seen.savedAt);
      var conditions := Kept(st.pauses.conditions, ReasonsRemoved(st, before, seen)) + added;
      && pauses.conditions == (if KeepsPauses(st, before, active, seen) then conditions else [])
      && (pauses.controllerPause <==>
            pauses.conditions != [] && (st.pauses.controllerPause || added != []))
  {
    hide Promotes, BecomesStable, Changed, MeetsChange, AddsAbort, RemovesAbort, Within, GoesBackWithinWindow,
      CheckpointAfter, PreKnown, PreAfter, PostAfter, ReasonsAdded, ReasonsRemoved, Kept, Added;
    FoundTells(st, seen);
    PromotionTells(st, active, seen);
  }

  /** A pass that meets no change, promotes nothing and leaves no abort keeps the pauses but a blue-green pause that it
      ends, and adds one for each new reason; the status says that it is paused as soon as there is a new one. Every
      other pass clears the pauses. */
  lemma {:induction false} PausesOutcome(st: Status, before: Option<string>, active: Option<string>, seen: Seen)
    ensures KeepsPauses(st, before, active, seen) ==>
      forall c :: c in Sync(st, before, active, seen).pauses.conditions <==>
        || (c in st.pauses.conditions && !(c.reason.BlueGreenPause? && EndsPause(st, before, seen)))
        || (c.startTime == seen.savedAt && IsNew(st, before, seen, c.reason))
    ensures !KeepsPauses(st, before, active, seen) ==> Sync(st, before, active, seen).pauses.conditions == []
    ensures Sync(st, before, active, seen).pauses.controllerPause <==>
      && Sync(st, before, active, seen).pauses.conditions != []
      && (st.pauses.controllerPause || exists reason :: IsNew(st, before, seen, reason))
  {
    hide Sync, BecomesStable, MeetsChange, GoesBackWithinWindow, ReasonsAdded, ReasonsRemoved, Kept, Added, AsksToPause,
      EndsPause, NotPaused, HasReason;
    PausesTell(st, before, active, seen);
    var added, removed := ReasonsAdded(st, before, seen), ReasonsRemoved(st, before, seen);
    if KeepsPauses(st, before, active, seen) {
      forall reason
        ensures IsNew(st, before, seen, reason) <==> reason in added && !HasReason(st.pauses.conditions, reason)
        ensures reason in removed <==> reason.BlueGreenPause? && EndsPause(st, before, seen)
      {
        ReasonsTell(st, before, seen, reason);
        PauseTells(st.pauses.conditions, reason);
      }
      KeptMembers(st.pauses.conditions, removed);
      AddedMembers(st.pauses.conditions, added, seen.savedAt);
      var conditions := Added(st.pauses.conditions, added, seen.savedAt);
      if conditions != [] {
        assert conditions[0] in conditions && IsNew(st, before, seen, conditions[0].reason);
      }
      if reason :| IsNew(st, before, seen, reason) {
        assert Condition(reason, seen.savedAt) in conditions;
      }
    }
  }

  /** The trip-wire of the preview is set afterwards exactly if the pass promotes nothing, a preview count is asked for,
      and it was set before or the preview has as many available pods as that, its analysis behind it, and its wait,
      with no new reason to wait. */
  lemma {:induction false} CheckpointOutcome(st: Status, before: Option<string>, active: Option<string>, seen: Seen)
    ensures Sync(st, before, active, seen).checkpoint <==>
      && !BecomesStable(st, active, seen) && seen.spec.previewCount.Some?
      && (|| st.checkpoint
          || (&& PreSucceeded(st, seen) && WaitIsOver(st, seen) && !AnalysisIsUnclear(st, seen)
              && seen.available == seen.spec.previewCount.value))
  {
    hide Promotes, BecomesStable, PreKnown, PreSucceeded, Succeeded, ReasonsAdded, WaitIsOver, AnalysisIsUnclear,
      BeginsPause, PausesAfter, PreAfter, PostAfter, PausedAt;
    PromotionTells(st, active, seen);
    SuccessTells(st, seen);
    WaitTells(st, seen);
    BeginsBeforeOver(st, before, seen);
    ReasonsTell(st, before, seen, InconclusiveAnalysis);
    if ReasonsAdded(st, before, seen) != [] {
      var reason := ReasonsAdded(st, before, seen)[0];
      ReasonsTell(st, before, seen, reason);
    }
  }

  /** A pass that only follows the replica count can only abort, or drop an abort of a rollout that is back on its
      stable version. */
  lemma {:induction false} ScaledOutcome(st: Status, deadlineAbort: bool, savedAt: int)
    ensures
      var st' := SyncReplicasOnly(st, deadlineAbort, savedAt);
      && st' == st.(pauses := st'.pauses)
      && st'.pauses.conditions == st.pauses.conditions && st'.pauses.controllerPause == st.pauses.controllerPause
      && (st'.pauses.abort <==> deadlineAbort || (st.pauses.abort && st.stableRS != st.currentPodHash))
  {
    NothingRemoved(st.pauses.conditions);
  }
}
