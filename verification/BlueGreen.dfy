/** The promotion state machine of a blue-green rollout: when the active service is switched, and when the stable
    hash moves. */
module BlueGreen {
  import opened Prelude
  import opened AnalysisTypes
  import opened PauseContexts
  import opened Rollback

  /** An analysis in the specification: absent, or with a number of templates. */
  datatype AnalysisSpec = NotConfigured | Configured(templates: nat)

  /** The part of the rollout's status that decides promotion; an empty string is an unset hash. `pre` and `post`
      hold, for a recorded analysis run, the hash it was created for. */
  datatype Status = Status(stableRS: string, currentPodHash: string, activeSelector: string, promoteFull: bool,
                           pauses: PauseStatus, checkpoint: bool, pre: Option<string>, post: Option<string>)

  datatype Spec = Spec(autoPromotionEnabled: Option<bool>, autoPromotionSeconds: nat, pre: AnalysisSpec,
                       post: AnalysisSpec, previewCount: Option<nat>, paused: bool, window: Option<int>)

  /** What a reconcile finds in the cluster. The phases are those of the recorded runs as they stand now, if they
      still exist; `readyForPause` and `saturated` describe the desired ReplicaSet, `previewReady` says it matches
      the preview count; `targetsVerified` is what the load balancer check gives when it is made. `now` is the clock
      when a pause is looked at, `savedAt` when the status is written; `deadlineAbort` says the progress deadline
      asks for an abort. */
  datatype Seen = Seen(spec: Spec, desired: Revision, stable: Option<Revision>, all: seq<Revision>, withinDelay: bool,
                       readyForPause: bool, saturated: bool, available: nat, previewReady: bool,
                       targetsVerified: bool, prePhase: Option<Phase>, postPhase: Option<Phase>, now: int,
                       savedAt: int, deadlineAbort: bool)

  /** The stable ReplicaSet, while it exists, is the one with the recorded hash. */
  predicate Fits(st: Status, seen: Seen) {
    && seen.desired.hash != ""
    && (seen.stable.Some? ==> seen.stable.value.hash == st.stableRS != "")
  }

  predicate Changed(st: Status, seen: Seen) {
    st.currentPodHash != "" && st.currentPodHash != seen.desired.hash
  }

  predicate FastRollback(seen: Seen) {
    IsFastRollback(seen.all, seen.desired, seen.stable, seen.spec.window, seen.withinDelay)
  }

  predicate Within(seen: Seen) {
    WithinWindow(seen.all, seen.desired, seen.stable, seen.spec.window)
  }

  predicate PausedInconclusive(st: Status) {
    HasReason(st.pauses.conditions, InconclusiveAnalysis)
  }

  /** The start of the blue-green pause, while there is one. */
  function PausedAt(st: Status): Option<int> {
    StartOf(st.pauses.conditions, BlueGreenPause)
  }

  predicate Halted(st: Status, seen: Seen) {
    seen.spec.paused || PausedInconclusive(st)
  }

  /** The recorded run, as long as it still exists. */
  function Current(recorded: Option<string>, phase: Option<Phase>): Option<string> {
    if phase == None then None else recorded
  }

  /** The analysis is not asked for, or its recorded run was successful. */
  predicate Passed(spec: AnalysisSpec, recorded: Option<string>, phase: Option<Phase>) {
    spec == NotConfigured || (Current(recorded, phase).Some? && phase == Some(Successful))
  }

  // ---------------------------------------------------------------------------------------------
  // The pause

  predicate FastTracked(st: Status, active: Option<string>, seen: Seen) {
    FastRollback(seen) || st.promoteFull || active == None || active.value == seen.desired.hash
  }

  predicate NeedsControllerPause(spec: Spec) {
    spec.autoPromotionEnabled == Some(false) || spec.autoPromotionSeconds > 0
  }

  /** The pause is over: the preview was scaled up, its time has passed, or somebody resumed the rollout. `added` says
      this pass added a pause. */
  predicate PauseCompleted(st: Status, seen: Seen, added: bool) {
    && !added
    && (|| st.checkpoint
        || (if seen.spec.autoPromotionEnabled != Some(false) then
              || seen.spec.autoPromotionSeconds == 0
              || (PausedAt(st).Some? && seen.now > PausedAt(st).value + seen.spec.autoPromotionSeconds)
            else st.pauses.controllerPause && PausedAt(st) == None))
  }

  /** What the pause stage does about the blue-green pause. */
  datatype PauseAction = Leave | AddPause | RemovePause

  function PauseStage(st: Status, active: Option<string>, seen: Seen): PauseAction {
    if st.pauses.abort || !seen.readyForPause || Halted(st, seen) then Leave
    else if FastTracked(st, active, seen) || st.checkpoint || !NeedsControllerPause(seen.spec) then RemovePause
    else if !Passed(seen.spec.pre, st.pre, seen.prePhase) then Leave
    else if PausedAt(st).Some? then if PauseCompleted(st, seen, false) then RemovePause else Leave
    else if st.pauses.controllerPause then Leave
    else AddPause
  }

  // ---------------------------------------------------------------------------------------------
  // The switch

  /** The selector of the active service after its stage. */
  function ActiveAfter(st: Status, active: Option<string>, seen: Seen): Option<string> {
    if Changed(st, seen) || Halted(st, seen) || !seen.readyForPause || !seen.saturated then active
    else if st.pauses.abort then Some(st.stableRS)
    else if FastTracked(st, active, seen) then Some(seen.desired.hash)
    else if PauseCompleted(st, seen, PauseStage(st, active, seen) == AddPause)
            && Passed(seen.spec.pre, st.pre, seen.prePhase) then
      Some(seen.desired.hash)
    else active
  }

  // ---------------------------------------------------------------------------------------------
  // Analysis runs

  predicate CancelsAnalysis(st: Status, seen: Seen) {
    || st.stableRS == st.currentPodHash || st.pauses.abort
    || st.promoteFull || FastRollback(seen) || st.stableRS == ""
  }

  /** A new run is needed: there is none, or the one there was inconclusive or belongs to an abort that was retried. */
  predicate NeedsNewRun(st: Status, current: Option<string>, phase: Option<Phase>) {
    || current == None
    || (if && st.pauses.controllerPause && PausedAt(st) == None
           && !HasReason(st.pauses.conditions, CanaryPauseStep)
        then phase == Some(Inconclusive) else st.pauses.abortedAt.Some?)
  }

  predicate SkipsPre(st: Status, seen: Seen) {
    || st.stableRS == seen.desired.hash || st.activeSelector == "" || st.activeSelector == seen.desired.hash
    || (Current(st.pre, seen.prePhase) == None
        && if seen.spec.previewCount.Some? then !seen.previewReady else !seen.saturated)
  }

  predicate SkipsPost(st: Status, seen: Seen) {
    || st.stableRS == seen.desired.hash || st.activeSelector != seen.desired.hash
    || (Current(st.post, seen.postPhase) == None && !seen.saturated)
  }

  /** A run with its phase; a fresh one has none yet. */
  datatype Run = NoRun | Run(hash: string, phase: Phase)

  function AsRun(recorded: Option<string>, phase: Option<Phase>): Run {
    if recorded.Some? && phase.Some? then Run(recorded.value, phase.value) else NoRun
  }

  /** The pre-promotion run after the analysis stage. */
  function PreAfter(st: Status, seen: Seen): Run {
    var run := AsRun(st.pre, seen.prePhase);
    if CancelsAnalysis(st, seen) then run
    else if seen.spec.pre == NotConfigured || seen.spec.pre.templates == 0 then NoRun
    else if SkipsPre(st, seen) || PausedInconclusive(st) then run
    else if NeedsNewRun(st, Current(st.pre, seen.prePhase), seen.prePhase) then Run(seen.desired.hash, Unset)
    else run
  }

  function PostAfter(st: Status, seen: Seen): Run {
    var run := AsRun(st.post, seen.postPhase);
    if CancelsAnalysis(st, seen) then run
    else if seen.spec.post == NotConfigured || seen.spec.post.templates == 0 then NoRun
    else if SkipsPost(st, seen) || !seen.targetsVerified || PausedInconclusive(st) then run
    else if NeedsNewRun(st, Current(st.post, seen.postPhase), seen.postPhase) then Run(seen.desired.hash, Unset)
    else run
  }

  function HashOf(run: Run): Option<string> {
    if run.Run? then Some(run.hash) else None
  }

  predicate Bad(run: Run) { run.Run? && run.phase in {Error, Failed} }

  predicate Unclear(run: Run) { run.Run? && run.phase == Inconclusive }

  predicate Succeeded(spec: AnalysisSpec, run: Run) {
    spec == NotConfigured || (run.Run? && run.phase == Successful)
  }

  predicate AnalysisAborts(st: Status, seen: Seen) {
    !CancelsAnalysis(st, seen) && (Bad(PreAfter(st, seen)) || Bad(PostAfter(st, seen)))
  }

  /** The reasons to pause that the two runs give; both may give the same. */
  function AnalysisReasons(st: Status, seen: Seen): seq<Reason> {
    if CancelsAnalysis(st, seen) then [] else RunReasons(PreAfter(st, seen)) + RunReasons(PostAfter(st, seen))
  }

  function RunReasons(run: Run): seq<Reason> {
    if Unclear(run) then [InconclusiveAnalysis] else []
  }

  function StageReasons(action: PauseAction): seq<Reason> {
    if action == AddPause then [BlueGreenPause] else []
  }

  // ---------------------------------------------------------------------------------------------
  // The status

  /** The runs the status sync knows of: those of the analysis stage, or the recorded ones when a change of the
      template kept the pass from reaching it. */
  function PreKnown(st: Status, seen: Seen): Run {
    if Changed(st, seen) then AsRun(st.pre, seen.prePhase) else PreAfter(st, seen)
  }

  function PostKnown(st: Status, seen: Seen): Run {
    if Changed(st, seen) then AsRun(st.post, seen.postPhase) else PostAfter(st, seen)
  }

  predicate AddsAbort(st: Status, seen: Seen) {
    !Changed(st, seen) && AnalysisAborts(st, seen)
  }

  predicate RemovesAbort(st: Status, seen: Seen) {
    (st.stableRS == st.currentPodHash && st.pauses.abort) || Changed(st, seen) || st.promoteFull || Within(seen)
  }

  predicate IsAborted(st: Status, seen: Seen) {
    !RemovesAbort(st, seen) && (AddsAbort(st, seen) || st.pauses.abort)
  }

  function Label(active: Option<string>): string {
    if active.Some? then active.value else ""
  }

  /** `active` is the selector after the switch. */
  predicate Promotes(st: Status, active: Option<string>, seen: Seen) {
    || seen.stable == None
    || Label(active) == ""
    || (&& Label(active) == seen.desired.hash
        && (Changed(st, seen) || seen.targetsVerified)
        && (|| st.promoteFull || FastRollback(seen)
            || (!IsAborted(st, seen) && Succeeded(seen.spec.post, PostKnown(st, seen)))))
  }

  /** The reasons to pause that a pass adds, and those it removes; `before` is the selector before the switch. */
  function ReasonsAdded(st: Status, before: Option<string>, seen: Seen): seq<Reason> {
    if Changed(st, seen) then [] else StageReasons(PauseStage(st, before, seen)) + AnalysisReasons(st, seen)
  }

  function ReasonsRemoved(st: Status, before: Option<string>, seen: Seen): seq<Reason> {
    if !Changed(st, seen) && PauseStage(st, before, seen) == RemovePause then [BlueGreenPause] else []
  }

  /** The trip-wire of the preview. A change of the template resets it first, but the stored value is asked again. */
  predicate CheckpointAfter(st: Status, seen: Seen, pre: Run, added: bool) {
    && seen.spec.previewCount.Some?
    && (|| st.checkpoint
        || (&& Succeeded(seen.spec.pre, pre) && PauseCompleted(st, seen, added)
            && seen.spec.previewCount.value == seen.available))
  }

  /** The pauses and the abort a complete pass leaves. */
  function PausesAfter(st: Status, before: Option<string>, seen: Seen, promote: bool): PauseStatus {
    Written(st.pauses, NO_PAUSE, ReasonsAdded(st, before, seen), ReasonsRemoved(st, before, seen),
            promote || Changed(st, seen) || st.promoteFull || Within(seen),
            AddsAbort(st, seen) || seen.deadlineAbort, promote || RemovesAbort(st, seen), seen.savedAt)
  }

  /** The status a complete pass leaves; `before` and `active` are the selector before and after the switch. */
  function Sync(st: Status, before: Option<string>, active: Option<string>, seen: Seen): Status {
    var changed, promote := Changed(st, seen), Promotes(st, active, seen);
    Status(if promote then seen.desired.hash else st.stableRS, seen.desired.hash, Label(active),
           st.promoteFull && !changed && !promote,
           PausesAfter(st, before, seen, promote),
           !promote && CheckpointAfter(st, seen, PreKnown(st, seen), ReasonsAdded(st, before, seen) != []),
           if changed then None else HashOf(PreAfter(st, seen)), if changed then None else HashOf(PostAfter(st, seen)))
  }

  /** A pass that only follows a change of the replica count. */
  function SyncReplicasOnly(st: Status, deadlineAbort: bool, savedAt: int): Status {
    var removeAbort := st.stableRS == st.currentPodHash && st.pauses.abort;
    st.(pauses := Written(st.pauses, st.pauses, [], [], false, deadlineAbort, removeAbort, savedAt))
  }

  lemma {:induction false} RunsKnown(st: Status, seen: Seen)
    ensures !Changed(st, seen) ==>
      PreKnown(st, seen) == PreAfter(st, seen) && PostKnown(st, seen) == PostAfter(st, seen)
  {
  }

  class BlueGreenRollout {
    var status: Status
    /** The selector of the active service; None when the service does not carry the label. */
    var active: Option<string>

    constructor (stored: Status, selector: Option<string>)
      ensures status == stored && active == selector
    {
      status, active := stored, selector;
    }

    method IsBlueGreenFastTracked(seen: Seen) returns (fast: bool)
      ensures fast <==> FastTracked(status, active, seen)
    {
      if FastRollback(seen) || status.promoteFull {
        return true;
      }
      return active == None || active.value == seen.desired.hash;
    }

    /** The pause stage. */
    method ReconcileBlueGreenPause(ctx: PauseContext, seen: Seen)
      requires ctx.stored == status.pauses && !ctx.HasAddPause()
      modifies ctx`addPauseReasons, ctx`removePauseReasons
      ensures ctx.addPauseReasons == StageReasons(PauseStage(status, active, seen))
      ensures ctx.removePauseReasons == old(ctx.removePauseReasons)
        + (if PauseStage(status, active, seen) == RemovePause then [BlueGreenPause] else [])
    {
      if status.pauses.abort || !seen.readyForPause || Halted(status, seen) {
        return;
      }
      var fast := IsBlueGreenFastTracked(seen);
      if fast || status.checkpoint || !NeedsControllerPause(seen.spec) {
        ctx.RemovePauseCondition(BlueGreenPause);
        return;
      }
      if !Passed(seen.spec.pre, status.pre, seen.prePhase) {
        return;
      }
      if PausedAt(status).Some? {
        if PauseCompleted(status, seen, ctx.HasAddPause()) {
          ctx.RemovePauseCondition(BlueGreenPause);
        }
      } else if !status.pauses.controllerPause {
        ctx.AddPauseCondition(BlueGreenPause);
      }
    }

    /** The stage that moves live traffic. */
    method ReconcileActiveService(ctx: PauseContext, seen: Seen)
      requires ctx.HasAddPause() <==> PauseStage(status, active, seen) == AddPause
      requires !Changed(status, seen)
      modifies this`active
      ensures active == ActiveAfter(status, old(active), seen)
    {
      hide FastTracked, PauseCompleted, Passed, PauseStage;
      if Halted(status, seen) || !seen.readyForPause || !seen.saturated {
        return;
      }
      var newPodHash := active;
      var fast := IsBlueGreenFastTracked(seen);
      if fast {
        newPodHash := Some(seen.desired.hash);
      }
      if PauseCompleted(status, seen, ctx.HasAddPause()) && Passed(seen.spec.pre, status.pre, seen.prePhase) {
        newPodHash := Some(seen.desired.hash);
      }
      if status.pauses.abort {
        newPodHash := Some(status.stableRS);
      }
      active := newPodHash;
    }

    /** What a run of the analysis stage means for the rollout. */
    method SetPauseOrAbort(ctx: PauseContext, run: Run)
      modifies ctx`addPauseReasons, ctx`addAbort
      ensures ctx.addPauseReasons == old(ctx.addPauseReasons) + RunReasons(run)
      ensures ctx.addAbort == (old(ctx.addAbort) || Bad(run))
    {
      if Unclear(run) {
        ctx.AddPauseCondition(InconclusiveAnalysis);
      } else if Bad(run) {
        ctx.AddAbort();
      }
    }

    /** The analysis stage: the runs it leaves, and what they mean. */
    method ReconcileAnalysisRuns(ctx: PauseContext, seen: Seen) returns (pre: Run, post: Run)
      modifies ctx`addPauseReasons, ctx`addAbort
      ensures pre == PreAfter(status, seen) && post == PostAfter(status, seen)
      ensures ctx.addPauseReasons == old(ctx.addPauseReasons) + AnalysisReasons(status, seen)
      ensures ctx.addAbort == (old(ctx.addAbort) || AnalysisAborts(status, seen))
    {
      hide PreAfter, PostAfter, CancelsAnalysis, Bad, RunReasons;
      pre, post := PreAfter(status, seen), PostAfter(status, seen);
      if !CancelsAnalysis(status, seen) {
        SetPauseOrAbort(ctx, pre);
        SetPauseOrAbort(ctx, post);
      }
    }

    method ShouldFullPromote(ctx: PauseContext, seen: Seen, targetsVerified: bool, post: Run) returns (promote: bool)
      requires ctx.IsAborted() == IsAborted(status, seen) && post == PostKnown(status, seen)
      requires targetsVerified == (Changed(status, seen) || seen.targetsVerified)
      ensures promote <==> Promotes(status, active, seen)
    {
      if seen.stable == None || Label(active) == "" {
        return true;
      }
      if Label(active) != seen.desired.hash || !targetsVerified {
        return false;
      }
      if status.promoteFull || FastRollback(seen) {
        return true;
      }
      return !ctx.IsAborted() && Succeeded(seen.spec.post, post);
    }

    /** One pass. It may end in an error before or after the switch, and its status may get lost. */
    method Reconcile(seen: Seen, reach: Reach, stored: bool)
      modifies this
      ensures active == if reach == BeforeSwitch then old(active) else ActiveAfter(old(status), old(active), seen)
      ensures status ==
        if reach == Complete && stored then Sync(old(status), old(active), active, seen) else old(status)
    {
      hide PauseStage, PreAfter, PostAfter, FastRollback, ActiveAfter, AnalysisAborts, AnalysisReasons, Changed, Sync;
      if reach == BeforeSwitch {
        return;
      }
      ghost var before := active;
      var ctx := new PauseContext(status.pauses);
      if status.stableRS == status.currentPodHash && ctx.IsAborted() {
        ctx.RemoveAbort();
      }
      var changed := Changed(status, seen);
      if changed {
        ChangedKeepsActive(status, active, seen);
      } else {
        ReconcileBlueGreenPause(ctx, seen);
        ReconcileActiveService(ctx, seen);
      }
      if reach == AfterSwitch {
        return;
      }
      var pre, post := AsRun(status.pre, seen.prePhase), AsRun(status.post, seen.postPhase);
      if !changed {
        pre, post := ReconcileAnalysisRuns(ctx, seen);
      }
      var newStatus := SyncRolloutStatus(ctx, seen, before, pre, post);
      if stored {
        status := newStatus;
      }
    }

    /** Write the decisions about pauses and aborts, to which the progress deadline may add an abort. */
    method PersistPauses(ctx: PauseContext, deadlineAbort: bool, savedAt: int) returns (pauses: PauseStatus)
      modifies ctx`addAbort
      ensures pauses == Written(ctx.stored, NO_PAUSE, ctx.addPauseReasons, ctx.removePauseReasons,
                                ctx.clearPauseConditions, old(ctx.addAbort) || deadlineAbort, ctx.removeAbort, savedAt)
    {
      if deadlineAbort && !ctx.IsAborted() {
        ctx.AddAbort();
      }
      pauses := ctx.CalculatePauseStatus(NO_PAUSE, savedAt);
    }

    /** Decide whether the desired ReplicaSet becomes stable, and what that does to pauses and aborts. */
    method DecidePromotion(ctx: PauseContext, seen: Seen, post: Run) returns (promote: bool)
      requires ctx.stored == status.pauses && post == PostKnown(status, seen)
      requires ctx.addAbort == AddsAbort(status, seen)
      requires ctx.removeAbort == (status.stableRS == status.currentPodHash && status.pauses.abort)
      modifies ctx`clearPauseConditions, ctx`removeAbort
      ensures promote == Promotes(status, active, seen)
      ensures ctx.clearPauseConditions ==
        (old(ctx.clearPauseConditions) || promote || Changed(status, seen) || status.promoteFull || Within(seen))
      ensures ctx.removeAbort == (promote || RemovesAbort(status, seen))
    {
      hide Changed, Within, AddsAbort, PostKnown, Promotes;
      if Changed(status, seen) || status.promoteFull || Within(seen) {
        ctx.ClearPauseConditions();
        ctx.RemoveAbort();
      }
      promote := ShouldFullPromote(ctx, seen, Changed(status, seen) || seen.targetsVerified, post);
      if promote {
        ctx.ClearPauseConditions();
        ctx.RemoveAbort();
      }
    }

    /** The status sync at the end of a pass. */
    method SyncRolloutStatus(ctx: PauseContext, seen: Seen, ghost before: Option<string>, pre: Run, post: Run)
      returns (newStatus: Status)
      requires pre == PreKnown(status, seen) && post == PostKnown(status, seen)
      requires ctx.stored == status.pauses && !ctx.clearPauseConditions
      requires ctx.addPauseReasons == ReasonsAdded(status, before, seen)
      requires ctx.removePauseReasons == ReasonsRemoved(status, before, seen)
      requires ctx.addAbort == AddsAbort(status, seen)
      requires ctx.removeAbort == (status.stableRS == status.currentPodHash && status.pauses.abort)
      modifies ctx
      ensures newStatus == Sync(status, before, active, seen)
    {
      hide PreAfter, PostAfter, CheckpointAfter, Label, HashOf, Within, Promotes, AddsAbort, RemovesAbort, ReasonsAdded,
        ReasonsRemoved, Changed, Written, PreKnown, PostKnown;
      var promote := DecidePromotion(ctx, seen, post);
      var checkpoint := !promote && CheckpointAfter(status, seen, pre, ctx.HasAddPause());
      var pauses := PersistPauses(ctx, seen.deadlineAbort, seen.savedAt);
      var changed := Changed(status, seen);
      RunsKnown(status, seen);
      newStatus := Status(if promote then seen.desired.hash else status.stableRS, seen.desired.hash, Label(active),
                          status.promoteFull && !changed && !promote, pauses, checkpoint,
                          if changed then None else HashOf(pre), if changed then None else HashOf(post));
    }
  }

  datatype Reach = BeforeSwitch | AfterSwitch | Complete

  lemma {:induction false} ChangedKeepsActive(st: Status, active: Option<string>, seen: Seen)
    requires Changed(st, seen)
    ensures ActiveAfter(st, active, seen) == active
  {
  }
}
