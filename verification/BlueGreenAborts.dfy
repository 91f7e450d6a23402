/** What a failed analysis does to a blue-green rollout over whole runs: it aborts the update, nothing else but a user
    or the progress deadline does, and while the abort stands live traffic goes back to the stable version. */
module BlueGreenAborts {
  import opened Prelude
  import opened AnalysisTypes
  import opened BlueGreen
  import opened BlueGreenOutcomes
  import opened BlueGreenProperties
  import opened PauseContexts
  import opened PauseOutcomes

  /** Analysis of an update matters to this pass, which meets the template recorded before. */
  predicate LooksAtAnalysis(st: BlueGreen.Status, seen: Seen) {
    && st.currentPodHash in {"", seen.desired.hash} && !st.pauses.abort && !st.promoteFull
    && st.stableRS !in {"", st.currentPodHash} && !GoesBack(seen)
  }

  /** The complete pass `i`, whose status is stored, looks at a run of a configured analysis that is recorded, does not
      replace it, and finds it in one of these phases. */
  ghost predicate FindsRun(events: seq<Event>, states: seq<State>, i: nat, phases: set<Phase>)
    requires i < |events| < |states|
  {
    && events[i].Pass? && events[i].reach == Complete && events[i].stored
    && var st, seen := states[i].status, events[i].seen;
    && LooksAtAnalysis(st, seen)
    && (|| (&& seen.spec.pre.Configured? && seen.spec.pre.templates > 0 && st.pre.Some? && seen.prePhase.Some?
            && seen.prePhase.value in phases && !StartsPre(st, seen))
        || (&& seen.spec.post.Configured? && seen.spec.post.templates > 0 && st.post.Some? && seen.postPhase.Some?
            && seen.postPhase.value in phases && !StartsPost(st, seen)))
  }

  ghost predicate FailedAt(events: seq<Event>, states: seq<State>, i: nat)
    requires i < |events| < |states|
  {
    FindsRun(events, states, i, {Failed, Error})
  }

  lemma {:induction false} FindsTells(events: seq<Event>, states: seq<State>, i: nat)
    requires i < |events| < |states| && Saves(events[i])
    ensures FindsRun(events, states, i, {Failed, Error}) <==> AnalysisFails(states[i].status, events[i].seen)
    ensures FindsRun(events, states, i, {Inconclusive}) <==> AnalysisIsUnclear(states[i].status, events[i].seen)
  {
    hide StartsPre, StartsPost, GoesBack;
  }

  /** In every run, a pass that finds such a run failed, or in error, leaves the rollout aborted; one that finds it
      inconclusive leaves it paused for that, unless it aborts as well, promotes or goes back within the window. */
  lemma {:induction false} FailureAborts(events: seq<Event>, states: seq<State>, i: nat)
    requires IsRun(events, states) && i < |events|
    ensures FailedAt(events, states, i) ==> states[i + 1].status.pauses.abort
    ensures FindsRun(events, states, i, {Inconclusive}) ==>
      var s, s', seen := states[i], states[i + 1], events[i].seen;
      || s'.status.pauses.abort || BecomesStable(s.status, s'.active, seen) || GoesBackWithinWindow(seen)
      || (!NotPaused(s'.status.pauses.conditions, InconclusiveAnalysis) && s'.status.pauses.controllerPause)
  {
    hide Sync, ActiveAfter, AnalysisFails, AnalysisIsUnclear, BecomesStable, GoesBackWithinWindow;
    var e, s, s' := events[i], states[i], states[i + 1];
    assert Happens(e, s, s');
    if Saves(e) {
      FindsTells(events, states, i);
      AbortOutcome(s.status, s.active, s'.active, e.seen);
      PausesOutcome(s.status, s.active, s'.active, e.seen);
      if FindsRun(events, states, i, {Inconclusive}) && KeepsPauses(s.status, s.active, s'.active, e.seen) {
        UnclearPauses(events, states, i);
      }
    }
  }

  lemma {:induction false} UnclearPauses(events: seq<Event>, states: seq<State>, i: nat)
    requires IsRun(events, states) && i < |events| && Saves(events[i])
    requires AnalysisIsUnclear(states[i].status, events[i].seen)
    requires KeepsPauses(states[i].status, states[i].active, states[i + 1].active, events[i].seen)
    ensures !NotPaused(states[i + 1].status.pauses.conditions, InconclusiveAnalysis)
    ensures states[i + 1].status.pauses.controllerPause
  {
    hide Sync, ActiveAfter, AnalysisIsUnclear, KeepsPauses, BeginsPause, EndsPause, Paused, ResumedBefore;
    var s, s', seen := states[i], states[i + 1], events[i].seen;
    assert Happens(events[i], s, s');
    PausesOutcome(s.status, s.active, s'.active, seen);
    PauseInvHolds(events, states, i + 1);
    var before := s.status.pauses.conditions;
    if NotPaused(before, InconclusiveAnalysis) {
      assert IsNew(s.status, s.active, seen, InconclusiveAnalysis);
      assert Condition(InconclusiveAnalysis, seen.savedAt) in s'.status.pauses.conditions;
    } else {
      var k :| 0 <= k < |before| && before[k].reason == InconclusiveAnalysis;
      assert before[k] in s'.status.pauses.conditions;
    }
  }

  // ---------------------------------------------------------------------------------------------
  // What is behind an abort

  /** A user asked for it, or the progress deadline, or a run of the hash recorded then had failed. */
  ghost predicate CausesAbort(events: seq<Event>, states: seq<State>, i: nat)
    requires i < |events| < |states|
  {
    match events[i]
    case SetAbort(abort) => abort
    case Scaled(deadlineAbort, _, stored) => deadlineAbort && stored
    case Pass(seen, reach, stored) =>
      && reach == Complete && stored
      && (|| seen.deadlineAbort
          || (&& FailedAt(events, states, i)
              && (states[i].status.pre == Some(seen.desired.hash) || states[i].status.post == Some(seen.desired.hash))))
    case _ => false
  }

  lemma {:induction false} NewAbortHasCause(events: seq<Event>, states: seq<State>, i: nat)
    requires IsRun(events, states) && i < |events|
    requires !states[i].status.pauses.abort && states[i + 1].status.pauses.abort
    ensures CausesAbort(events, states, i)
  {
    hide Sync, ActiveAfter, AnalysisFails, BecomesStable, SyncReplicasOnly, LostBefore;
    var e, s, s' := events[i], states[i], states[i + 1];
    assert Happens(e, s, s');
    InvHolds(events, states, i);
    if Saves(e) {
      FindsTells(events, states, i);
      AbortOutcome(s.status, s.active, s'.active, e.seen);
    } else if e.Scaled? {
      ScaledOutcome(s.status, e.deadlineAbort, e.savedAt);
    }
  }

  /** Over every run, an abort that stands has such a cause behind it, since which it stood. */
  lemma {:induction false} AbortHasCause(events: seq<Event>, states: seq<State>, i: nat) returns (cause: nat)
    requires IsRun(events, states) && i < |states| && states[i].status.pauses.abort
    ensures cause < i && CausesAbort(events, states, cause)
    ensures forall k :: cause < k <= i ==> states[k].status.pauses.abort
    decreases i
  {
    hide CausesAbort, Happens;
    if i == 0 {
      assert false;
    } else if states[i - 1].status.pauses.abort {
      cause := AbortHasCause(events, states, i - 1);
    } else {
      NewAbortHasCause(events, states, i - 1);
      cause := i - 1;
    }
  }

  // ---------------------------------------------------------------------------------------------
  // What an abort does

  /** The pass gets to the switch, meets no change, is not halted, and finds the ReplicaSet ready and saturated. */
  predicate ReachesSwitch(e: Event, st: BlueGreen.Status) {
    && e.Pass? && e.reach != BeforeSwitch && st.currentPodHash in {"", e.seen.desired.hash}
    && !e.seen.spec.paused && e.seen.readyForPause && e.seen.saturated
  }

  /** In every run, after an analysis failed, as long as the abort stands, every pass that gets to the switch gives
      live traffic to the stable hash: an abort leaves no pause in its way. */
  lemma {:induction false} FailureGivesTrafficBack(events: seq<Event>, states: seq<State>, i: nat, j: nat)
    requires IsRun(events, states) && i < j < |events| && FailedAt(events, states, i)
    requires forall k :: i + 1 < k <= j ==> states[k].status.pauses.abort
    requires ReachesSwitch(events[j], states[j].status)
    ensures states[i + 1].status.pauses.abort
    ensures states[j + 1].active == Some(states[j].status.stableRS)
  {
    hide Sync, ActiveAfter, FailedAt, NotPaused;
    FailureAborts(events, states, i);
    NothingPausedSince(events, states, i, j);
    assert Happens(events[j], states[j], states[j + 1]);
    assert NotPaused([], InconclusiveAnalysis) by { Nothing(); }
    SwitchOutcome(states[j].status, states[j].active, events[j].seen);
  }

  lemma {:induction false} Nothing()
    ensures NotPaused([], InconclusiveAnalysis)
  {
  }

  lemma {:induction false} NothingPausedSince(events: seq<Event>, states: seq<State>, i: nat, j: nat)
    requires IsRun(events, states) && i < j < |states| && FailedAt(events, states, i)
    requires forall k :: i < k <= j ==> states[k].status.pauses.abort
    ensures states[j].status.pauses.conditions == []
    decreases j
  {
    hide Sync, ActiveAfter, BecomesStable, SyncReplicasOnly, AnalysisFails;
    var e, s, s' := events[j - 1], states[j - 1], states[j];
    assert Happens(e, s, s');
    if i < j - 1 {
      NothingPausedSince(events, states, i, j - 1);
    }
    if Saves(e) {
      PausesOutcome(s.status, s.active, s'.active, e.seen);
    } else if e.Scaled? {
      ScaledOutcome(s.status, e.deadlineAbort, e.savedAt);
    }
  }

  /** Until then a failed update keeps its abort: only a change of the template, a promotion, a way back within the
      window, a return to the stable hash, or a user ends it. */
  lemma {:induction false} AbortStands(events: seq<Event>, states: seq<State>, i: nat)
    requires IsRun(events, states) && i < |events|
    requires states[i].status.pauses.abort && !states[i + 1].status.pauses.abort
    ensures
      var st, e := states[i].status, events[i];
      || e == SetAbort(false)
      || (st.stableRS == st.currentPodHash && (e.Scaled? || Saves(e)))
      || (&& Saves(e)
          && (|| MeetsChange(st, e.seen) || st.promoteFull || GoesBackWithinWindow(e.seen)
              || BecomesStable(st, states[i + 1].active, e.seen)))
  {
    hide Sync, ActiveAfter, AnalysisFails, BecomesStable, SyncReplicasOnly, MeetsChange, GoesBackWithinWindow;
    var e, s, s' := events[i], states[i], states[i + 1];
    assert Happens(e, s, s');
    if Saves(e) {
      AbortOutcome(s.status, s.active, s'.active, e.seen);
    } else if e.Scaled? {
      ScaledOutcome(s.status, e.deadlineAbort, e.savedAt);
    }
  }
}
