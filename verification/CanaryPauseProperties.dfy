/** When a pause step of a canary rollout is left, over whole runs. */
module CanaryPauseProperties {
  import opened Prelude
  import opened CanaryOutcomes
  import opened CanaryPromotion
  import opened CanaryPromotionProperties
  import opened PauseContexts
  import opened PauseOutcomes
  import opened Rollback
  import TrafficRouting

  // ---------------------------------------------------------------------------------------------
  // Where a pause comes from

  /** Between the two moments the index and the hash stayed, or a user wrote the index. */
  ghost predicate StepKept(events: seq<Event>, states: seq<Status>, j: nat, i: nat)
    requires j < i <= |events| < |states|
  {
    || (exists k :: j < k < i && events[k].SkipTo?)
    || (&& StepIndex(states[j]) == StepIndex(states[i])
        && forall k :: j < k <= i ==>
             StepIndex(states[k]) == StepIndex(states[i]) && states[k].currentPodHash == states[i].currentPodHash)
  }

  predicate HasSteps(st: Status) {
    st.steps.Some? && st.steps.value != []
  }

  /** Reconcile `j` added this pause; the pause of a step was added at the step that is the current one still. */
  ghost predicate PausedBy(events: seq<Event>, states: seq<Status>, j: nat, i: nat, c: Condition)
    requires i <= |events| < |states|
  {
    && j < i && events[j].Synced?
    && c.startTime == events[j].seen.savedAt && AsksToPause(states[j], events[j].seen, c.reason)
    && (c.reason == CanaryPauseStep ==> HasSteps(states[i]) && StepKept(events, states, j, i))
  }

  ghost predicate Paused(events: seq<Event>, states: seq<Status>, i: nat, c: Condition)
    requires i <= |events| < |states|
  {
    exists j: nat :: PausedBy(events, states, j, i, c)
  }

  /** A paused rollout was resumed, and no complete reconcile took place since. */
  ghost predicate JustResumed(events: seq<Event>, states: seq<Status>, i: nat)
    requires i <= |events| < |states|
  {
    exists r :: 0 <= r < i && events[r].Resume? && states[r].pauses.conditions != [] && NoneSynced(events, r + 1, i)
  }

  ghost predicate NoneSynced(events: seq<Event>, from: nat, to: nat)
    requires to <= |events|
  {
    forall k :: from <= k < to ==> !events[k].Synced?
  }

  /** Every pause was added by some reconcile, while there are pauses the status says so, and a status that says so
      without pauses was just resumed. */
  ghost predicate PauseInv(events: seq<Event>, states: seq<Status>, i: nat)
    requires i <= |events| < |states|
  {
    var pauses := states[i].pauses;
    && (forall c :: c in pauses.conditions ==> Paused(events, states, i, c))
    && (pauses.conditions != [] ==> pauses.controllerPause)
    && (pauses.controllerPause && pauses.conditions == [] ==> JustResumed(events, states, i))
  }

  lemma {:induction false} PausesShape(st: Status, seen: Seen)
    requires st.pauses.conditions != [] ==> st.pauses.controllerPause
    ensures
      var pauses := Sync(st, seen).pauses;
      && (pauses.controllerPause <==> pauses.conditions != [])
      && (pauses.conditions != [] ==> KeepsPauses(st, seen))
      && forall c :: c in pauses.conditions ==>
           || (c in st.pauses.conditions && !(c.reason == CanaryPauseStep && StepIsDone(st, seen)))
           || (c.startTime == seen.savedAt && AsksToPause(st, seen, c.reason))
  {
    hide Sync, KeepsPauses, StepIsDone, AsksToPause;
    PausesOutcome(st, seen);
    var conditions := Sync(st, seen).pauses.conditions;
    if conditions != [] {
      assert conditions[0] in conditions;
    }
  }

  /** A reconcile that goes on stays at the step unless it is done; a step that is being paused for is not done. */
  lemma {:induction false} StaysAtStep(st: Status, seen: Seen)
    requires KeepsPauses(st, seen)
    ensures !StepIsDone(st, seen) ==> StepIndex(Sync(st, seen)) == StepIndex(st) || seen.steps == []
    ensures AsksToPause(st, seen, CanaryPauseStep) && Fits(st, seen) ==> !StepIsDone(st, seen) && seen.steps != []
  {
    hide Sync, GoesOnWithSteps, InAHurry;
    if seen.steps != [] {
      StepLeftIff(st, seen);
    }
    if CanaryPauseStep in seen.asked {
      var k :| 0 <= k < |seen.asked| && seen.asked[k] == CanaryPauseStep;
    }
  }

  /** An event that does not touch the step, as far as a pause of the step is concerned. */
  predicate KeepsStep(e: Event, st: Status, st': Status) {
    && st'.steps == st.steps
    && (e.SkipTo? || (StepIndex(st') == StepIndex(st) && st'.currentPodHash == st.currentPodHash))
  }

  lemma {:induction false} KeptStep(events: seq<Event>, states: seq<Status>, j: nat, i: nat)
    requires j < i < |events| < |states| && StepKept(events, states, j, i)
    requires KeepsStep(events[i], states[i], states[i + 1])
    ensures StepKept(events, states, j, i + 1)
  {
    if events[i].SkipTo? {
      assert j < i < i + 1;
    }
  }

  lemma {:induction false} PausedLater(events: seq<Event>, states: seq<Status>, i: nat, c: Condition)
    requires i < |events| < |states| && Paused(events, states, i, c)
    requires c.reason == CanaryPauseStep && HasSteps(states[i]) ==> KeepsStep(events[i], states[i], states[i + 1])
    ensures Paused(events, states, i + 1, c)
  {
    hide AsksToPause, StepKept;
    var j: nat :| PausedBy(events, states, j, i, c);
    if c.reason == CanaryPauseStep {
      KeptStep(events, states, j, i);
    }
    assert PausedBy(events, states, j, i + 1, c);
  }

  lemma {:induction false} JustPaused(events: seq<Event>, states: seq<Status>, i: nat, c: Condition)
    requires i < |events| < |states| && events[i].Synced? && c.startTime == events[i].seen.savedAt
    requires AsksToPause(states[i], events[i].seen, c.reason)
    requires c.reason == CanaryPauseStep ==> HasSteps(states[i + 1]) && StepIndex(states[i + 1]) == StepIndex(states[i])
    ensures Paused(events, states, i + 1, c)
  {
    hide AsksToPause;
    assert PausedBy(events, states, i, i + 1, c);
  }

  lemma {:induction false} SyncedPauses(events: seq<Event>, states: seq<Status>, i: nat)
    requires IsRun(events, states) && i < |events| && events[i].Synced? && PauseInv(events, states, i)
    ensures PauseInv(events, states, i + 1)
  {
    hide Paused, JustResumed, Sync, AsksToPause, StepIsDone, GoesOnWithSteps, Inv;
    var st, st', seen := states[i], states[i + 1], events[i].seen;
    assert Happens(events[i], st, st');
    PausesShape(st, seen);
    if st'.pauses.conditions != [] {
      var times := InvHolds(events, states, i);
      InvTemplate(events, states, i, times);
      OnlySameVersion(st, seen);
      StableOutcome(st, seen);
      SameTemplate(st, seen);
      StaysAtStep(st, seen);
      forall c | c in st'.pauses.conditions
        ensures Paused(events, states, i + 1, c)
      {
        if c in st.pauses.conditions && !(c.reason == CanaryPauseStep && StepIsDone(st, seen)) {
          PausedLater(events, states, i, c);
        } else {
          JustPaused(events, states, i, c);
        }
      }
    }
  }

  lemma {:induction false} InvTemplate(events: seq<Event>, states: seq<Status>, i: nat, times: seq<nat>)
    requires i <= |events| < |states| && Inv(events, states, i, times)
    ensures states[i].steps.Some? ==> states[i].currentPodHash.Some?
  {
  }

  /** An event after which the status is as paused as before. */
  lemma {:induction false} KeptPauses(events: seq<Event>, states: seq<Status>, i: nat)
    requires i < |events| < |states| && PauseInv(events, states, i) && !events[i].Synced?
    requires KeepsStep(events[i], states[i], states[i + 1])
    requires states[i + 1].pauses.conditions == states[i].pauses.conditions
    requires states[i + 1].pauses.controllerPause == states[i].pauses.controllerPause
    ensures PauseInv(events, states, i + 1)
  {
    hide Paused;
    forall c | c in states[i].pauses.conditions
      ensures Paused(events, states, i + 1, c)
    {
      PausedLater(events, states, i, c);
    }
    if r :| 0 <= r < i && events[r].Resume? && states[r].pauses.conditions != [] && NoneSynced(events, r + 1, i) {
      assert NoneSynced(events, r + 1, i + 1);
    }
  }

  lemma {:induction false} UserPauses(events: seq<Event>, states: seq<Status>, i: nat)
    requires i < |events| < |states| && PauseInv(events, states, i)
    requires events[i].Resume? || (events[i].SkipTo? && events[i].clear)
    requires Happens(events[i], states[i], states[i + 1])
    ensures PauseInv(events, states, i + 1)
  {
    if events[i].Resume? {
      if states[i].pauses.conditions == [] {
        KeptPauses(events, states, i);
      } else {
        assert NoneSynced(events, i + 1, i + 1);
      }
    }
  }

  lemma {:induction false} PauseInvHolds(events: seq<Event>, states: seq<Status>, i: nat)
    requires IsRun(events, states) && i < |states|
    ensures PauseInv(events, states, i)
    decreases i
  {
    hide PauseInv, Sync, Fits, SyncReplicasOnly;
    if i == 0 {
      NothingPaused(events, states);
      return;
    }
    PauseInvHolds(events, states, i - 1);
    var e := events[i - 1];
    assert Happens(e, states[i - 1], states[i]);
    if e.Synced? {
      SyncedPauses(events, states, i - 1);
    } else if e.Resume? || (e.SkipTo? && e.clear) {
      UserPauses(events, states, i - 1);
    } else {
      if e.Scaled? {
        ScaledOutcome(states[i - 1], e.deadlineAbort, e.savedAt);
      }
      KeptPauses(events, states, i - 1);
    }
  }

  lemma {:induction false} NothingPaused(events: seq<Event>, states: seq<Status>)
    requires IsRun(events, states)
    ensures PauseInv(events, states, 0)
  {
  }

  // ---------------------------------------------------------------------------------------------
  // Main results

  /** The pause of the current step was added at this step, unless a user wrote the index since, and has lasted. */
  ghost predicate WaitedOut(events: seq<Event>, states: seq<Status>, i: nat, duration: int)
    requires i < |events| < |states| && events[i].Synced?
  {
    exists c :: Paused(events, states, i, c) && c.reason == CanaryPauseStep
      && events[i].seen.progress.now > c.startTime + duration
  }

  /** A pause step is left only after its pause has lasted its time, or just after a paused rollout was resumed, or
      while the rollout is paused, but for other reasons. */
  lemma {:induction false} PauseStepLeft(events: seq<Event>, states: seq<Status>, i: nat)
    requires IsRun(events, states) && i < |events| && Completes(events[i], states[i])
    requires events[i].seen.steps[StepIndex(states[i])].Pause?
    ensures
      var st, duration := states[i], events[i].seen.steps[StepIndex(states[i])].duration;
      || (duration.Some? && WaitedOut(events, states, i, duration.value))
      || JustResumed(events, states, i)
      || (st.pauses.conditions != [] && NoStepPause(st.pauses.conditions))
  {
    hide Paused, JustResumed, GoesOnWithSteps, NoStepPause;
    PauseInvHolds(events, states, i);
    var st, step, now := states[i], events[i].seen.steps[StepIndex(states[i])], events[i].seen.progress.now;
    if !NoStepPause(st.pauses.conditions) {
      var k :| 0 <= k < |st.pauses.conditions| && IsFirst(st.pauses.conditions, CanaryPauseStep, k)
        && st.pauses.conditions[k].startTime + step.duration.value < now;
      assert Paused(events, states, i, st.pauses.conditions[k]);
    }
  }

  /** While a rollout goes on, paused but not by its user, it leaves a pause step without a duration exactly when none
      of the pauses is that of a step. */
  lemma {:induction false} OtherPauseCompletesStep(events: seq<Event>, states: seq<Status>, i: nat, seen: Seen)
    requires IsRun(events, states) && i < |states|
    requires states[i].pauses.conditions != [] && !seen.progress.specPaused
    requires GoesOnWithSteps(states[i], seen) && !InAHurry(states[i], seen)
    requires StepIndex(states[i]) < |seen.steps| && seen.steps[StepIndex(states[i])] == Pause(None)
    ensures Sync(states[i], seen).index == Some(StepIndex(states[i]) + 1) <==>
      NoStepPause(states[i].pauses.conditions)
  {
    hide Paused, JustResumed, Sync, GoesOnWithSteps, InAHurry, NoStepPause;
    PauseInvHolds(events, states, i);
    StepLeftIff(states[i], seen);
  }

  // ---------------------------------------------------------------------------------------------
  // An inconclusive analysis skips a pause

  const STEPS := [SetWeight, Pause(None), SetWeight]

  function Look(desired: Revision, stable: Option<Revision>, available: nat, atDesired: bool, asked: seq<Reason>): Event
  {
    var progress := Progress(false, 0, atDesired, None, None, None, false);
    Synced(Seen(desired, false, TrafficRouting.View(desired.hash, 4, available), stable, [A, B], None, STEPS, 4, None,
                progress, asked, true, false, false, 0))
  }

  function Stored(stableRS: Option<string>, current: string, index: nat, pauses: PauseStatus): Status {
    CanaryPromotion.Status.Status(stableRS, Some(current), Some(STEPS), Some(index), false, pauses)
  }

  const INCONCLUSIVE := PauseStatus([Condition(InconclusiveAnalysis, 0)], true, false, None)

  lemma {:induction false} UpdateToB()
    ensures Happens(Look(A, None, 4, true, []), NEW_ROLLOUT, Stored(None, "a", 0, NO_PAUSE))
    ensures Happens(Look(A, None, 4, true, []), Stored(None, "a", 0, NO_PAUSE), Stored(Some("a"), "a", 3, NO_PAUSE))
    ensures Happens(Look(B, Some(A), 0, false, []), Stored(Some("a"), "a", 3, NO_PAUSE),
                    Stored(Some("a"), "b", 0, NO_PAUSE))
  {
  }

  lemma {:induction false} AnalysisPauses()
    ensures Happens(Look(B, Some(A), 1, true, [InconclusiveAnalysis]), Stored(Some("a"), "b", 0, NO_PAUSE),
                    Stored(Some("a"), "b", 1, INCONCLUSIVE))
  {
    assert Kept([], [CanaryPauseStep]) == [] && Added([], [], 0) == [];
    assert [InconclusiveAnalysis][..0] == [];
  }

  lemma {:induction false} PauseIsSkipped()
    ensures Happens(Look(B, Some(A), 1, false, []), Stored(Some("a"), "b", 1, INCONCLUSIVE),
                    Stored(Some("a"), "b", 2, INCONCLUSIVE))
  {
    var conditions := INCONCLUSIVE.conditions;
    assert conditions[..0] == [] && Kept([], [CanaryPauseStep]) == [];
    assert Kept(conditions, [CanaryPauseStep]) == conditions && Added(conditions, [], 0) == [];
  }

  /** The analysis turns inconclusive while the step before a pause completes: the rollout passes the pause step, which
      waits for a user, without any user, and is still paused for the analysis. */
  lemma {:induction false} InconclusiveSkipsPause() returns (events: seq<Event>, states: seq<Status>)
    ensures IsRun(events, states) && |events| == 5 && forall i :: 0 <= i < 5 ==> events[i].Synced?
    ensures states[4].index == Some(1) && CurrentStep(states[4], events[4].seen) == Some(Pause(None))
    ensures states[5].index == Some(2) && states[4].pauses == states[5].pauses == INCONCLUSIVE
  {
    var first := Look(A, None, 4, true, []);
    events := [first, first, Look(B, Some(A), 0, false, []), Look(B, Some(A), 1, true, [InconclusiveAnalysis]),
               Look(B, Some(A), 1, false, [])];
    states := [NEW_ROLLOUT, Stored(None, "a", 0, NO_PAUSE), Stored(Some("a"), "a", 3, NO_PAUSE),
               Stored(Some("a"), "b", 0, NO_PAUSE), Stored(Some("a"), "b", 1, INCONCLUSIVE),
               Stored(Some("a"), "b", 2, INCONCLUSIVE)];
    forall i | 0 <= i < 5
      ensures Happens(events[i], states[i], states[i + 1])
    {
      hide Happens, Look, Stored;
      if i < 3 {
        UpdateToB();
      } else if i < 4 {
        AnalysisPauses();
      } else {
        PauseIsSkipped();
      }
    }
  }
}
