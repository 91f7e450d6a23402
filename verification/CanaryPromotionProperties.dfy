/** Safety of canary promotion over whole runs. */
module CanaryPromotionProperties {
  import opened Prelude
  import opened PauseContexts
  import opened Rollback
  import opened CanaryPromotion
  import opened CanaryOutcomes
  import TrafficRouting
  import TrafficRoutingProperties

  // ---------------------------------------------------------------------------------------------
  // Runs

  /** What happens between two stored statuses: a complete reconcile or one that only follows the replica count,
      with its patch stored; a pass that stores nothing; or a user who asks for a full promotion, for an abort or a
      retry, resumes a paused rollout, or writes the step index, which may clear the pauses as well. */
  datatype Event = Synced(seen: Seen) | Scaled(deadlineAbort: bool, savedAt: int) | NotStored | PromoteFull
    | SetAbort(abort: bool) | Resume | SkipTo(index: nat, clear: bool)

  predicate Happens(e: Event, st: Status, st': Status) {
    match e
    case Synced(seen) => Fits(st, seen) && st' == Sync(st, seen)
    case Scaled(deadlineAbort, savedAt) => st' == SyncReplicasOnly(st, deadlineAbort, savedAt)
    case NotStored => st' == st
    case PromoteFull => st' == st.(promoteFull := true)
    case SetAbort(abort) => st' == st.(pauses := st.pauses.(abort := abort))
    case Resume => st' == st.(pauses := st.pauses.(conditions := []))
    case SkipTo(index, clear) =>
      st' == st.(index := Some(index),
                 pauses := if clear then st.pauses.(conditions := [], controllerPause := false) else st.pauses)
  }

  const NEW_ROLLOUT := CanaryPromotion.Status.Status(None, None, None, None, false, NO_PAUSE)

  ghost predicate IsRun(events: seq<Event>, states: seq<Status>) {
    && |states| == |events| + 1 && states[0] == NEW_ROLLOUT
    && forall i :: 0 <= i < |events| ==> Happens(events[i], states[i], states[i + 1])
  }

  // ---------------------------------------------------------------------------------------------
  // Events of a run

  /** The reconcile starts the steps anew: the template or the steps changed, or an abort takes effect. */
  predicate Restarts(e: Event, st: Status) {
    e.Synced? && (!SameVersion(st, e.seen) || (e.seen.stable.Some? && Aborting(st, e.seen)))
  }

  /** The reconcile goes on with the steps, and the one at the current index is done. */
  predicate Completes(e: Event, st: Status) {
    e.Synced? && GoesOnWithSteps(st, e.seen) && StepIsDone(st, e.seen)
  }

  /** A reconcile that met a request for full promotion, or a rollback within the window; or a user wrote the index. */
  predicate Forces(e: Event, st: Status) {
    e.SkipTo? || (e.Synced? && (GoesBackWithinWindow(e.seen) || (SameVersion(st, e.seen) && st.promoteFull)))
  }

  /** Something forced the rollout since the steps last started anew, before event `i`. A reconcile that starts
      them anew for a rollback within the window forces as well. */
  ghost predicate ForcedBefore(events: seq<Event>, states: seq<Status>, i: nat)
    requires i <= |events| < |states|
  {
    exists j :: 0 <= j < i && Forces(events[j], states[j]) && NoRestart(events, states, j + 1, i)
  }

  ghost predicate NoRestart(events: seq<Event>, states: seq<Status>, from: nat, to: nat)
    requires to <= |events| < |states|
  {
    forall j :: from <= j < to ==> !Restarts(events[j], states[j])
  }

  /** At the increasing moments `times` exactly the steps 0, 1, 2, ... were completed, one after another, and nothing
      started the steps anew since. */
  ghost predicate CompletedInOrder(events: seq<Event>, states: seq<Status>, i: nat, times: seq<nat>)
    requires i <= |events| < |states|
  {
    && (forall m :: 0 <= m < |times| ==>
          && times[m] < i && Completes(events[times[m]], states[times[m]])
          && StepIndex(states[times[m]]) == m
          && NoRestart(events, states, times[m], i))
    && (forall m, k :: 0 <= m < k < |times| ==> times[m] < times[k])
  }

  // ---------------------------------------------------------------------------------------------
  // The invariant

  /** An update with steps is under way. */
  predicate Updating(st: Status) {
    st.stableRS != st.currentPodHash && st.steps.Some? && st.steps.value != []
  }

  /** While an update is under way that nothing forced, the index counts the steps completed. */
  ghost predicate Inv(events: seq<Event>, states: seq<Status>, i: nat, times: seq<nat>)
    requires i <= |events| < |states|
  {
    var st := states[i];
    && (st.steps.Some? ==> st.currentPodHash.Some?)
    && CompletedInOrder(events, states, i, times)
    && (Updating(st) && !ForcedBefore(events, states, i) ==>
          st.index == Some(|times|) && |times| <= |st.steps.value|)
  }

  lemma {:induction false} OrderKept(events: seq<Event>, states: seq<Status>, i: nat, times: seq<nat>)
    requires i < |events| < |states| && CompletedInOrder(events, states, i, times)
    requires !Restarts(events[i], states[i])
    ensures CompletedInOrder(events, states, i + 1, times)
  {
  }

  lemma {:induction false} OrderExtended(events: seq<Event>, states: seq<Status>, i: nat, times: seq<nat>)
    requires i < |events| < |states| && CompletedInOrder(events, states, i, times)
    requires Completes(events[i], states[i]) && StepIndex(states[i]) == |times|
    ensures CompletedInOrder(events, states, i + 1, times + [i])
  {
  }

  lemma {:induction false} ForcedGrows(events: seq<Event>, states: seq<Status>, i: nat)
    requires i < |events| < |states|
    requires (ForcedBefore(events, states, i) && !Restarts(events[i], states[i])) || Forces(events[i], states[i])
    ensures ForcedBefore(events, states, i + 1)
  {
    if Forces(events[i], states[i]) {
      assert NoRestart(events, states, i + 1, i + 1);
    } else {
      var j :| 0 <= j < i && Forces(events[j], states[j]) && NoRestart(events, states, j + 1, i);
      assert NoRestart(events, states, j + 1, i + 1);
    }
  }

  /** What one reconcile does to the parts of the status the invariant speaks about. */
  lemma {:induction false} SyncShape(st: Status, seen: Seen)
    ensures
      var st', hash := Sync(st, seen), Some(seen.desired.hash);
      && st'.steps == Some(seen.steps) && st'.currentPodHash == hash
      && (BecomesStable(st, seen) ==> SameVersion(st, seen) && st'.stableRS == hash)
      && (!BecomesStable(st, seen) ==> st'.stableRS == st.stableRS)
      && (st'.stableRS != hash && seen.steps != [] && Restarts(Synced(seen), st) && !Forces(Synced(seen), st) ==>
            st'.index == Some(0))
      && (GoesOnWithSteps(st, seen) && seen.steps != [] && !Forces(Synced(seen), st) ==>
            st'.index == Some(StepIndex(st) + (if StepIsDone(st, seen) then 1 else 0)))
  {
    hide Sync, StepIsDone, SameVersion, BecomesStable, GoesBackWithinWindow, Aborting, StepIndex;
    OnlySameVersion(st, seen);
    StableOutcome(st, seen);
    if seen.steps != [] {
      if GoesOnWithSteps(st, seen) {
        StepLeftIff(st, seen);
      } else {
        IndexStartsAnew(st, seen);
      }
    }
  }

  lemma {:induction false} InvSynced(events: seq<Event>, states: seq<Status>, i: nat, times: seq<nat>)
    returns (times': seq<nat>)
    requires i < |events| && |states| == |events| + 1 && Inv(events, states, i, times)
    requires events[i].Synced? && Happens(events[i], states[i], states[i + 1])
    ensures Inv(events, states, i + 1, times')
  {
    hide Sync, SameVersion, BecomesStable, Aborting, StepIsDone, ForcedBefore, CompletedInOrder, GoesBackWithinWindow;
    var st, seen := states[i], events[i].seen;
    SyncShape(st, seen);
    if Restarts(events[i], st) {
      times' := [];
      NothingCompleted(events, states, i + 1);
      if Forces(events[i], st) {
        ForcedGrows(events, states, i);
      }
      return;
    }
    times' := times;
    OrderKept(events, states, i, times);
    if ForcedBefore(events, states, i) || Forces(events[i], st) {
      ForcedGrows(events, states, i);
    } else if !BecomesStable(st, seen) {
      NeedsStable(st, seen);
      SameTemplate(st, seen);
      if StepIsDone(st, seen) && st.stableRS != st.currentPodHash && seen.steps != [] {
        OrderExtended(events, states, i, times);
        DoneBelow(st, seen);
        times' := times + [i];
      }
    }
  }

  lemma {:induction false} SameTemplate(st: Status, seen: Seen)
    requires SameVersion(st, seen) && (st.steps.Some? ==> st.currentPodHash.Some?)
    ensures st.steps == Some(seen.steps) && st.currentPodHash == Some(seen.desired.hash)
  {
  }

  lemma {:induction false} DoneBelow(st: Status, seen: Seen)
    requires StepIsDone(st, seen)
    ensures StepIndex(st) < |seen.steps|
  {
  }

  lemma {:induction false} NeedsStable(st: Status, seen: Seen)
    requires SameVersion(st, seen) && !BecomesStable(st, seen)
    ensures seen.stable.Some?
  {
  }

  lemma {:induction false} NothingCompleted(events: seq<Event>, states: seq<Status>, i: nat)
    requires i <= |events| < |states|
    ensures CompletedInOrder(events, states, i, [])
  {
  }

  lemma {:induction false} InvHolds(events: seq<Event>, states: seq<Status>, i: nat) returns (times: seq<nat>)
    requires IsRun(events, states) && i < |states|
    ensures Inv(events, states, i, times)
    decreases i
  {
    hide Sync, ForcedBefore, CompletedInOrder;
    if i == 0 {
      NothingCompleted(events, states, 0);
      return [];
    }
    times := InvHolds(events, states, i - 1);
    assert Happens(events[i - 1], states[i - 1], states[i]);
    if events[i - 1].Synced? {
      times := InvSynced(events, states, i - 1, times);
    } else {
      OrderKept(events, states, i - 1, times);
      if ForcedBefore(events, states, i - 1) || Forces(events[i - 1], states[i - 1]) {
        ForcedGrows(events, states, i - 1);
      }
    }
  }

  // ---------------------------------------------------------------------------------------------
  // Main results

  /** The stable hash moves only in a complete reconcile, to the hash of the desired ReplicaSet, and only if there is
      no stable ReplicaSet at all, or the new one is available and the rollout is not aborted and either was forced
      since its steps last started anew, or has completed every one of them, one at a time and in order, since then. */
  lemma {:induction false} StableMovesSafely(events: seq<Event>, states: seq<Status>, i: nat) returns (times: seq<nat>)
    requires IsRun(events, states) && i < |events| && states[i + 1].stableRS != states[i].stableRS
    ensures events[i].Synced? && states[i + 1].stableRS == Some(events[i].seen.desired.hash)
    ensures events[i].seen.stable.Some? ==>
      var st, seen := states[i], events[i].seen;
      && EnoughPods(seen) && !Aborting(st, seen)
      && (|| InAHurry(st, seen) || ForcedBefore(events, states, i)
          || (CompletedInOrder(events, states, i, times) && |times| == |seen.steps|))
  {
    hide EnoughPods, Aborting, InAHurry, ForcedBefore, CompletedInOrder, Sync;
    times := InvHolds(events, states, i);
    var st, st' := states[i], states[i + 1];
    assert Happens(events[i], st, st');
    var seen := events[i].seen;
    SyncShape(st, seen);
    assert BecomesStable(st, seen);
    SameTemplate(st, seen);
    if seen.stable.Some? && !InAHurry(st, seen) {
      assert seen.steps == [] || StepIndex(st) == |seen.steps|;
      if seen.steps == [] {
        times := [];
        NothingCompleted(events, states, i);
      }
    }
  }

  /** A reconcile that starts from an index within the steps leaves one, unless the step at the old index completes in
      the very reconcile that was forced past it; then the index ends one beyond the end. */
  lemma {:induction false} IndexLeavesSteps(st: Status, seen: Seen)
    requires StepIndex(st) <= |seen.steps|
    ensures StepIndex(Sync(st, seen)) <= |seen.steps| <==>
      !(GoesOnWithSteps(st, seen) && InAHurry(st, seen) && StepIsDone(st, seen))
    ensures StepIndex(Sync(st, seen)) <= |seen.steps| + 1
  {
    hide Sync, StepIsDone, SameVersion, BecomesStable, GoesBackWithinWindow, Aborting, InAHurry;
    if seen.steps == [] {
      NoStepsNoIndex(st, seen);
    } else if GoesOnWithSteps(st, seen) {
      StepLeftIff(st, seen);
    } else {
      IndexStartsAnew(st, seen);
    }
    if StepIsDone(st, seen) {
      DoneBelow(st, seen);
    }
  }

  /** One route step, a full promotion, and a canary that is not yet available: the index becomes 2 of 1. */
  lemma {:induction false} IndexBeyondEnd() returns (st: Status, seen: Seen)
    ensures Fits(st, seen) && StepIndex(st) == 0 && |seen.steps| == 1 && Sync(st, seen).index == Some(2)
  {
    var old_, new_ := Revision("a", 1, false), Revision("b", 2, false);
    var progress := Progress(false, 0, false, None, None, None, false);
    seen := Seen(new_, true, TrafficRouting.View("b", 1, 0), Some(old_), [old_, new_], None, [SetHeaderRoute], 1, None,
                 progress, [], true, false, false, 0);
    st := CanaryPromotion.Status.Status(Some("a"), Some("b"), Some([SetHeaderRoute]), Some(0), true, NO_PAUSE);
    assert !Ready(seen) && !Within(seen);
  }

  // ---------------------------------------------------------------------------------------------
  // What the index does to traffic routing

  /** Traffic routing meets the status in the next pass. */
  predicate Meets(spec: TrafficRouting.Spec, s: TrafficRouting.Situation, st: Status, steps: seq<Step>) {
    && s.statusIndex == st.index && s.promoteFull == st.promoteFull && s.statusAbort == st.pauses.abort
    && s.fullyPromoted == (st.stableRS == st.currentPodHash)
    && |spec.steps| == |steps| && forall i :: 0 <= i < |steps| ==> (spec.steps[i].Some? <==> steps[i].SetWeight?)
  }

  /** The reconcile completes a step while a rollback within the window, and not a request, forces it past the steps. */
  predicate OutrunsSteps(st: Status, seen: Seen) {
    && GoesOnWithSteps(st, seen) && StepIsDone(st, seen)
    && GoesBackWithinWindow(seen) && !st.promoteFull && st.stableRS != st.currentPodHash
  }

  /** Some but not all of the pods the canary should have are available, and nothing is aborted. */
  predicate PartlyAvailable(spec: TrafficRouting.Spec, s: TrafficRouting.Situation) {
    spec.replicas > 0 && s.canary.Some? && s.canary.value.available > 0 && !s.atDesired && !s.aborted
  }

  /** In that situation traffic routing of the next pass fails at run time exactly when this reconcile outran the
      steps. */
  lemma {:induction false} RoutingFailsIffOutrun(st: Status, seen: Seen, spec: TrafficRouting.Spec,
      s: TrafficRouting.Situation)
    requires StepIndex(st) <= |seen.steps| && (st.steps.Some? ==> st.currentPodHash.Some?)
    requires Meets(spec, s, Sync(st, seen), seen.steps) && PartlyAvailable(spec, s)
    ensures TrafficRoutingProperties.FailsAtRunTime(spec, s) <==> OutrunsSteps(st, seen)
  {
    hide Sync, StepIsDone, SameVersion, BecomesStable, GoesBackWithinWindow, Aborting;
    IndexLeavesSteps(st, seen);
    StableOutcome(st, seen);
    OnlySameVersion(st, seen);
    if SameVersion(st, seen) {
      SameTemplate(st, seen);
    }
    if StepIsDone(st, seen) {
      DoneBelow(st, seen);
    }
  }

  const A := Revision("a", 1, false)
  const B := Revision("b", 2, false)

  /** What a pass sees with one route step and a window of one; a progress that completes no other step. */
  function Look(desired: Revision, stable: Option<Revision>, available: nat): Seen {
    var progress := Progress(false, 0, false, None, None, None, false);
    Seen(desired, false, TrafficRouting.View(desired.hash, 4, available), stable, [A, B], Some(1), [SetHeaderRoute], 4,
         None, progress, [], true, false, false, 0)
  }

  function Stored(stableRS: Option<string>, current: string, index: nat): Status {
    CanaryPromotion.Status.Status(stableRS, Some(current), Some([SetHeaderRoute]), Some(index), false, NO_PAUSE)
  }

  lemma {:induction false} RolloutOfB()
    ensures
      && Happens(Synced(Look(A, None, 4)), NEW_ROLLOUT, Stored(None, "a", 0))
      && Happens(Synced(Look(A, None, 4)), Stored(None, "a", 0), Stored(Some("a"), "a", 1))
      && Happens(Synced(Look(B, Some(A), 4)), Stored(Some("a"), "a", 1), Stored(Some("a"), "b", 0))
      && Happens(Synced(Look(B, Some(A), 4)), Stored(Some("a"), "b", 0), Stored(Some("a"), "b", 1))
      && Happens(Synced(Look(B, Some(A), 4)), Stored(Some("a"), "b", 1), Stored(Some("b"), "b", 1))
  {
  }

  lemma {:induction false} BackToA()
    ensures
      && Happens(Synced(Look(A, Some(B), 0)), Stored(Some("b"), "b", 1), Stored(Some("b"), "a", 0))
      && Happens(Synced(Look(A, Some(B), 0)), Stored(Some("b"), "a", 0), Stored(Some("b"), "a", 2))
      && OutrunsSteps(Stored(Some("b"), "a", 0), Look(A, Some(B), 0))
  {
    assert RevisionsBetween([A, B], 2, A, B) == {};
  }

  /** Going back within the window to a version that is scaled down, with a step that completes at once, leaves an
      index of 2 of 1, on which traffic routing fails while one of the four canary pods is available. */
  lemma {:induction false} RollbackOutrunsSteps()
    returns (events: seq<Event>, states: seq<Status>, spec: TrafficRouting.Spec, s: TrafficRouting.Situation)
    ensures IsRun(events, states) && |states| == 8 && states[7].index == Some(2)
    ensures Meets(spec, s, states[7], [SetHeaderRoute]) && PartlyAvailable(spec, s)
    ensures TrafficRouting.ValidSpec(spec) && TrafficRouting.DesiredWeight(spec, s) == None
  {
    var first, second, back := Synced(Look(A, None, 4)), Synced(Look(B, Some(A), 4)), Synced(Look(A, Some(B), 0));
    events := [first, first, second, second, second, back, back];
    states := [NEW_ROLLOUT, Stored(None, "a", 0), Stored(Some("a"), "a", 1), Stored(Some("a"), "b", 0),
               Stored(Some("a"), "b", 1), Stored(Some("b"), "b", 1), Stored(Some("b"), "a", 0),
               Stored(Some("b"), "a", 2)];
    assert IsRun(events, states) by {
      hide Sync, Fits, Look;
      RolloutOfB();
      BackToA();
    }
    var stable, canary := TrafficRouting.View("b", 4, 4), TrafficRouting.View("a", 4, 1);
    spec := TrafficRouting.Spec(100, 4, false, false, [None], None, "canary", "stable");
    s := TrafficRouting.Situation(Some(stable), Some(canary), None, false, false, false, false, Some(2), false, []);
  }
}
