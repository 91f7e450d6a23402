/** What traffic routing guarantees: weights stay within bounds, an abort only ever lowers the canary's share, and
    the stable side is never given more than it can carry. */
module TrafficRoutingProperties {
  import opened Prelude
  import opened TrafficRouting

  // ---------------------------------------------------------------------------------------------
  // Arithmetic

  lemma {:induction false} DivAtMost(a: int, b: int, d: int)
    requires d > 0 && a <= b * d
    ensures a / d <= b
  {
  }

  lemma {:induction false} DivAtLeast(a: int, b: int, d: int)
    requires d > 0 && a >= b * d
    ensures a / d >= b
  {
    var q := a / d;
    assert a < (q + 1) * d;
    if q < b {
      MulMonotone(q + 1, b, d);
    }
  }

  /** Turning pods into a weight and back never asks for more pods than there are. */
  lemma {:induction false} RoundTripLoses(max: int, replicas: int, available: int)
    requires max > 0 && replicas > 0 && available >= 0
    ensures (((max * available) / replicas) * replicas) / max <= available
  {
    var weight := (max * available) / replicas;
    assert weight * replicas <= max * available;
    DivAtMost(weight * replicas, available, max);
  }

  lemma {:induction false} SmallerShare(max: int, replicas: int, available: int, share: int)
    requires max > 0 && replicas > 0 && available >= 0 && share <= (max * available) / replicas
    ensures GoDiv(share * replicas, max) <= available
  {
    var weight := (max * available) / replicas;
    RoundTripLoses(max, replicas, available);
    assert share * replicas <= weight * replicas by {
      MulMonotone(share, weight, replicas);
    }
    if share >= 0 {
      assert share * replicas >= 0;
      DivMonotone(share * replicas, weight * replicas, max);
    } else {
      NegativeQuotient(share, replicas, max);
    }
  }

  lemma {:induction false} MulMonotone(a: int, b: int, c: int)
    requires a <= b && c >= 0
    ensures a * c <= b * c
  {
  }

  lemma {:induction false} DivMonotone(a: int, b: int, d: int)
    requires d > 0 && a <= b
    ensures a / d <= b / d
  {
    DivAtLeast(b, a / d, d);
  }

  lemma {:induction false} NegativeQuotient(share: int, replicas: int, max: int)
    requires share < 0 && replicas >= 0 && max > 0
    ensures GoDiv(share * replicas, max) <= 0
  {
    assert share * replicas <= 0;
  }

  // ---------------------------------------------------------------------------------------------
  // One reconcile

  lemma {:induction false} LastWeightBounds(spec: Spec, n: nat)
    requires ValidSpec(spec) && n <= |spec.steps|
    ensures 0 <= LastWeight(spec.steps, n).value <= spec.maxWeight
  {
    if n > 0 && spec.steps[n - 1] == None {
      LastWeightBounds(spec, n - 1);
    }
  }

  lemma {:induction false} NextLowerBounds(spec: Spec, pods: int, n: nat)
    requires ValidSpec(spec) && n <= |spec.steps|
    ensures 0 <= NextLowerStep(spec, pods, n) <= spec.maxWeight
    ensures pods <= 0 ==> NextLowerStep(spec, pods, n) == 0
  {
    hide ReplicasFor;
    if n > 0 {
      NextLowerBounds(spec, pods, n - 1);
      if spec.steps[n - 1].Some? {
        PodsForWeight(spec.steps[n - 1].value, spec);
      }
    }
  }

  lemma {:induction false} PodsForWeight(weight: int, spec: Spec)
    requires spec.maxWeight >= 1 && weight >= 0
    ensures ReplicasFor(weight, spec) >= 0
  {
    MulMonotone(0, weight, spec.replicas);
  }

  lemma {:induction false} CurrentBounds(spec: Spec, s: Situation)
    requires ValidSpec(spec)
    ensures 0 <= CurrentSetWeight(spec, s) <= spec.maxWeight
  {
    hide LastWeight;
    if Index(spec, s).Some? && Index(spec, s).value < |spec.steps| {
      LastWeightBounds(spec, Index(spec, s).value + 1);
    }
  }

  lemma {:induction false} DesiredCanaryBounds(spec: Spec, s: Situation)
    requires ValidSpec(spec)
    ensures 0 <= DesiredCanaryWeight(spec, s) <= spec.maxWeight
  {
    hide CurrentSetWeight, NextLowerStep, ValidSpec;
    if s.stable.Some? && s.canary.Some? {
      var lacking := spec.replicas - s.stable.value.available;
      var pods := if spec.explicitAbortDelay then lacking else Max(lacking, s.canary.value.available);
      NextLowerBounds(spec, pods, |spec.steps|);
    }
    CurrentBounds(spec, s);
  }

  lemma {:induction false} StableWeightNonNegative(spec: Spec, stable: View)
    requires spec.replicas > 0 && spec.maxWeight >= 1
    ensures StableWeight(spec, stable) >= 0
  {
    MulMonotone(0, stable.available, spec.maxWeight);
  }

  /** An abort stays at the recorded weight while the stable side cannot carry what the next lower step leaves it. */
  predicate AbortKeeps(spec: Spec, s: Situation)
    requires ValidSpec(spec)
  {
    && spec.dynamicStableScale && s.stable.Some? && s.canary.Some? && s.weights.Some? && spec.replicas > 0
    && 0 < DesiredCanaryWeight(spec, s) < spec.maxWeight - StableWeight(spec, s.stable.value)
  }

  predicate NeverNegative(w: Option<Weights>) {
    w.Some? ==> w.value.canary.weight >= 0
  }

  lemma {:induction false} AbortBounds(spec: Spec, s: Situation)
    requires ValidSpec(spec) && NeverNegative(s.weights)
    ensures 0 <= WeightOnAbort(spec, s)
    ensures s.weights.Some? ==> WeightOnAbort(spec, s) <= s.weights.value.canary.weight
    ensures WeightOnAbort(spec, s) <= spec.maxWeight
      || (AbortKeeps(spec, s) && WeightOnAbort(spec, s) == s.weights.value.canary.weight)
    ensures AbortKeeps(spec, s) ==> WeightOnAbort(spec, s) == s.weights.value.canary.weight
  {
    hide DesiredCanaryWeight, StableWeight;
    DesiredCanaryBounds(spec, s);
    if s.stable.Some? && spec.replicas > 0 {
      StableWeightNonNegative(spec, s.stable.value);
    }
  }

  /** While the rollout is aborted, or back on its stable version, the canary never gets a larger share: whatever was
      recorded, even more than the maximum. */
  lemma {:induction false} AbortNeverRaises(spec: Spec, s: Situation)
    requires ValidSpec(spec) && NeverNegative(s.weights) && s.weights.Some?
    requires s.aborted || s.fullyPromoted
    ensures DesiredWeight(spec, s).Some? ==> 0 <= DesiredWeight(spec, s).value <= s.weights.value.canary.weight
  {
    hide WeightOnAbort, LastWeight;
    AbortBounds(spec, s);
  }

  /** The weight that leaves the stable side as much as its available pods carry always passes the check that
      guards every change, whatever the threshold. */
  lemma {:induction false} DerivedWeightPasses(spec: Spec, stable: View, carried: int)
    requires spec.replicas > 0 && spec.maxWeight >= 1 && carried <= StableWeight(spec, stable)
    ensures CheckReplicasAvailable(spec, Some(stable), carried)
  {
    hide ThresholdMet;
    SmallerShare(spec.maxWeight, spec.replicas, stable.available, carried);
  }

  /** With dynamic stable scaling, an abort that wants to lower the canary's share is never blocked by that check. */
  lemma {:induction false} LoweringIsNeverBlocked(spec: Spec, s: Situation)
    requires ValidSpec(spec) && NeverNegative(s.weights) && s.weights.Some?
    requires spec.dynamicStableScale && s.stable.Some? && s.canary.Some? && spec.replicas > 0
    requires WeightOnAbort(spec, s) < s.weights.value.canary.weight
    ensures CheckReplicasAvailable(spec, s.stable, spec.maxWeight - WeightOnAbort(spec, s))
  {
    hide DesiredCanaryWeight, StableWeight, CheckReplicasAvailable;
    assert spec.maxWeight - WeightOnAbort(spec, s) <= StableWeight(spec, s.stable.value);
    DerivedWeightPasses(spec, s.stable.value, spec.maxWeight - WeightOnAbort(spec, s));
  }

  /** Without a progress threshold, passing the check means enough available stable pods for what the weight leaves. */
  lemma {:induction false} CarriedByAvailablePods(spec: Spec, s: Situation)
    requires ValidSpec(spec) && StableCarries(spec, s) && spec.threshold == None
    ensures s.stable.Some? && DesiredWeight(spec, s).Some?
    ensures
      var left := spec.maxWeight - DesiredWeight(spec, s).value;
      s.stable.value.available >= GoDiv(left * spec.replicas, spec.maxWeight)
  {
    hide DesiredWeight;
  }

  /** Once the stable side is complete and the canary is drained (or has its own delay), an abort takes all traffic
      off the canary. */
  lemma {:induction false} AbortCompletes(spec: Spec, s: Situation)
    requires ValidSpec(spec) && NeverNegative(s.weights) && s.weights.Some?
    requires spec.dynamicStableScale && s.statusAbort && s.stable.Some? && s.canary.Some? && spec.replicas > 0
    requires s.stable.value.available >= spec.replicas
    requires s.canary.value.available == 0 || spec.explicitAbortDelay
    ensures WeightOnAbort(spec, s) == 0
    ensures CheckReplicasAvailable(spec, s.stable, spec.maxWeight)
  {
    hide StableWeight, NextLowerStep, CheckReplicasAvailable;
    NextLowerBounds(spec, 0, |spec.steps|);
    var lacking := spec.replicas - s.stable.value.available;
    var pods := if spec.explicitAbortDelay then lacking else Max(lacking, s.canary.value.available);
    NextLowerBounds(spec, pods, |spec.steps|);
    CompleteStable(spec, s.stable.value);
    DerivedWeightPasses(spec, s.stable.value, spec.maxWeight);
  }

  lemma {:induction false} CompleteStable(spec: Spec, stable: View)
    requires spec.replicas > 0 && spec.maxWeight >= 1 && stable.available >= spec.replicas
    ensures StableWeight(spec, stable) >= spec.maxWeight
  {
    MulMonotone(spec.replicas, stable.available, spec.maxWeight);
    DivAtLeast(spec.maxWeight * stable.available, spec.maxWeight, spec.replicas);
  }

  // ---------------------------------------------------------------------------------------------
  // Failures at run time

  /** Computing the weight fails at run time: it looks at a desired ReplicaSet that does not exist, divides by a replica
      count of 0, or starts its search for the previous weight behind the last step. */
  predicate FailsAtRunTime(spec: Spec, s: Situation) {
    || (&& s.fullyPromoted && spec.dynamicStableScale && s.canary == None
        && s.weights.Some? && s.weights.value.canary.hash != "")
    || (&& !s.fullyPromoted && !s.aborted && s.canary.Some? && s.canary.value.available > 0
        && (if s.promoteFull then spec.dynamicStableScale && spec.replicas == 0
            else !s.atDesired && spec.steps != [] && s.statusIndex.Some? && s.statusIndex.value > |spec.steps|))
  }

  lemma {:induction false} WeightUnlessFailure(spec: Spec, s: Situation)
    requires ValidSpec(spec)
    ensures DesiredWeight(spec, s) == None <==> FailsAtRunTime(spec, s)
  {
    hide WeightOnAbort, CurrentSetWeight;
  }

  /** The whole weight goes to the canary while no step index is recorded, and there is a stable ReplicaSet to be left
      with nothing. */
  predicate MaximumWithoutIndex(spec: Spec, s: Situation)
    requires ValidSpec(spec)
  {
    s.statusIndex == None && s.stable.Some? && DesiredWeight(spec, s) == Some(spec.maxWeight)
  }

  /** Every call before the verification is answered without error. */
  predicate Answers(spec: Spec, s: Situation, r: Router) {
    && BranchSucceeds(spec, s, spec.maxWeight, r) && r.routes && (ResetsWeight(s) ==> r.resetWeight)
    && r.updateHash && r.setWeight
  }

  /** The first router that does not answer well and leave it at that answers, but cannot yet verify the weight. */
  predicate MeetsUnverified(spec: Spec, s: Situation, routers: seq<Router>) {
    exists k :: 0 <= k < |routers| && IsFirstUnverified(spec, s, routers, k)
  }

  predicate IsFirstUnverified(spec: Spec, s: Situation, routers: seq<Router>, k: nat)
    requires k < |routers|
  {
    && Answers(spec, s, routers[k]) && routers[k].verify.NotYet?
    && forall m :: 0 <= m < k ==> Answers(spec, s, routers[m]) && routers[m].verify in {NotVerifiable, Verified}
  }

  /** A weight of the maximum leaves the stable side nothing to carry. */
  lemma {:induction false} NothingToCarry(spec: Spec, s: Situation)
    requires ValidSpec(spec) && DesiredWeight(spec, s) == Some(spec.maxWeight)
    ensures StableCarries(spec, s) <==> s.stable.Some?
  {
    hide DesiredWeight;
    assert GoDiv(0 * spec.replicas, spec.maxWeight) == 0;
  }

  lemma {:induction false} PanicOfOne(spec: Spec, s: Situation, r: Router)
    requires ValidSpec(spec) && !FailsAtRunTime(spec, s)
    ensures RouteEnd(spec, s, r) == Panicked <==>
      MaximumWithoutIndex(spec, s) && Answers(spec, s, r) && r.verify.NotYet?
    ensures MaximumWithoutIndex(spec, s) ==>
      (RouteEnd(spec, s, r) == Done && !EndsPass(spec, s, r) <==>
        Answers(spec, s, r) && r.verify in {NotVerifiable, Verified})
  {
    hide DesiredWeight, StableCarries, BranchSucceeds, FailsAtRunTime, ResetsWeight;
    WeightUnlessFailure(spec, s);
    if DesiredWeight(spec, s) == Some(spec.maxWeight) {
      NothingToCarry(spec, s);
    }
  }

  /** The first router decides, or hands over to the rest. */
  lemma {:induction false} MeetsUnverifiedUnfolds(spec: Spec, s: Situation, routers: seq<Router>)
    requires routers != []
    ensures
      var r := routers[0];
      MeetsUnverified(spec, s, routers) <==>
        && Answers(spec, s, r)
        && (r.verify.NotYet? || (r.verify in {NotVerifiable, Verified} && MeetsUnverified(spec, s, routers[1..])))
  {
    hide Answers;
    var r, rest := routers[0], routers[1..];
    if k :| 0 <= k < |routers| && IsFirstUnverified(spec, s, routers, k) {
      if k > 0 {
        assert IsFirstUnverified(spec, s, rest, k - 1);
      }
    }
    if Answers(spec, s, r) {
      if r.verify.NotYet? {
        assert IsFirstUnverified(spec, s, routers, 0);
      } else if r.verify in {NotVerifiable, Verified} && MeetsUnverified(spec, s, rest) {
        var k :| 0 <= k < |rest| && IsFirstUnverified(spec, s, rest, k);
        assert IsFirstUnverified(spec, s, routers, k + 1);
      }
    }
  }

  /** Asking routers fails at run time exactly when computing the weight does, or when the whole weight goes to the
      canary without a recorded index and they meet one that cannot yet verify it. */
  lemma {:induction false} RoutersFailIff(spec: Spec, s: Situation, routers: seq<Router>)
    requires ValidSpec(spec) && routers != []
    ensures RoutersEnd(spec, s, routers) == Panicked <==>
      FailsAtRunTime(spec, s) || (MaximumWithoutIndex(spec, s) && MeetsUnverified(spec, s, routers))
  {
    hide DesiredWeight, StableCarries, BranchSucceeds, FailsAtRunTime, Answers, MaximumWithoutIndex, RouteEnd,
      MeetsUnverified, EndsPass;
    var r, rest := routers[0], routers[1..];
    if FailsAtRunTime(spec, s) {
      WeightFailsRouter(spec, s, r);
    } else {
      PanicOfOne(spec, s, r);
      MeetsUnverifiedUnfolds(spec, s, routers);
      if rest == [] {
        assert RoutersEnd(spec, s, rest) == Done;
        NobodyUnverified(spec, s, rest);
      } else {
        RoutersFailIff(spec, s, rest);
      }
    }
  }

  lemma {:induction false} WeightFailsRouter(spec: Spec, s: Situation, r: Router)
    requires ValidSpec(spec) && FailsAtRunTime(spec, s)
    ensures RouteEnd(spec, s, r) == Panicked
  {
    hide DesiredWeight, FailsAtRunTime;
    WeightUnlessFailure(spec, s);
  }

  lemma {:induction false} NobodyUnverified(spec: Spec, s: Situation, routers: seq<Router>)
    requires routers == []
    ensures !MeetsUnverified(spec, s, routers)
  {
  }

  /** Some routers make a situation fail at run time exactly when computing its weight does, or when the whole weight
      goes to the canary without a recorded index. */
  lemma {:induction false} RoutingCanFailIff(spec: Spec, s: Situation)
    requires ValidSpec(spec)
    ensures (exists routers :: routers != [] && RoutersEnd(spec, s, routers) == Panicked) <==>
      FailsAtRunTime(spec, s) || MaximumWithoutIndex(spec, s)
  {
    hide FailsAtRunTime, MaximumWithoutIndex, RoutersEnd;
    var unverified := [Router(true, true, true, true, true, true, NotYet)];
    assert IsFirstUnverified(spec, s, unverified, 0);
    RoutersFailIff(spec, s, unverified);
    if routers :| routers != [] && RoutersEnd(spec, s, routers) == Panicked {
      RoutersFailIff(spec, s, routers);
    }
  }

  /** Routers that answer without error, and do not report an unverified weight, end well unless the weight fails. */
  lemma {:induction false} HealthyRoutersEndWell(spec: Spec, s: Situation, routers: seq<Router>)
    requires ValidSpec(spec) && routers != [] && forall i :: 0 <= i < |routers| ==> Healthy(routers[i])
    ensures RoutersEnd(spec, s, routers) == (if FailsAtRunTime(spec, s) then Panicked else Done)
  {
    hide DesiredWeight, StableCarries, FailsAtRunTime;
    WeightUnlessFailure(spec, s);
    assert Healthy(routers[0]);
    if |routers| > 1 {
      HealthyRoutersEndWell(spec, s, routers[1..]);
    }
  }

  /** A full promotion of a rollout that was scaled to nothing, while a canary pod is still available, divides by 0. */
  lemma {:induction false} PromotionOfNothingFails()
    ensures
      var spec := Spec(100, 0, true, false, [], None, "canary", "stable");
      var stable, canary := View("a", 0, 0), View("b", 1, 1);
      var s := Situation(Some(stable), Some(canary), None, false, false, false, true, None, true, []);
      ValidSpec(spec) && FailsAtRunTime(spec, s) && DesiredWeight(spec, s) == None
  {
  }

  /** No steps, so no index is recorded: a full promotion whose router cannot yet verify the maximum fails. */
  lemma {:induction false} UnverifiedPromotionFails()
    ensures
      var spec := Spec(100, 4, true, false, [], None, "canary", "stable");
      var stable, canary := View("a", 4, 4), View("b", 4, 4);
      var s := Situation(Some(stable), Some(canary), None, false, false, false, true, None, true, []);
      var router := Router(true, true, true, true, true, true, NotYet);
      && ValidSpec(spec) && !FailsAtRunTime(spec, s) && RoutersEnd(spec, s, [router]) == Panicked
  {
  }

  // ---------------------------------------------------------------------------------------------
  // Bounds, and the ways out of them

  /** A full promotion with dynamic stable scaling derives the weight from the canary's pods, and there are more of
      them than the maximum weight stands for. */
  predicate Overshoots(spec: Spec, s: Situation) {
    && !s.fullyPromoted && !s.aborted && s.promoteFull && spec.dynamicStableScale
    && s.canary.Some? && spec.maxWeight * s.canary.value.available >= (spec.maxWeight + 1) * spec.replicas
    && s.canary.value.available > 0
  }

  /** The reconcile asks for the recorded weight once more: in a full promotion, or in an abort that waits. */
  predicate KeepsRecorded(spec: Spec, s: Situation)
    requires ValidSpec(spec)
  {
    if RollingBack(spec, s) || (s.aborted && !s.fullyPromoted) then AbortKeeps(spec, s)
    else !s.fullyPromoted && !Unavailable(s) && s.promoteFull && !spec.dynamicStableScale && s.weights.Some?
  }

  /** The desired weight lies within bounds unless a full promotion overshoots, or a recorded weight that lies outside
      is kept. */
  lemma {:induction false} WeightWithinBounds(spec: Spec, s: Situation)
    requires ValidSpec(spec) && NeverNegative(s.weights) && DesiredWeight(spec, s).Some?
    ensures DesiredWeight(spec, s).value >= 0
    ensures DesiredWeight(spec, s).value <= spec.maxWeight <==>
      && !Overshoots(spec, s)
      && !(KeepsRecorded(spec, s) && s.weights.value.canary.weight > spec.maxWeight)
  {
    hide WeightOnAbort, AbortKeeps, LastWeight, CurrentSetWeight;
    AbortBounds(spec, s);
    CurrentBounds(spec, s);
    if Index(spec, s).Some? && Index(spec, s).value <= |spec.steps| {
      LastWeightBounds(spec, Index(spec, s).value);
    }
    if s.canary.Some? && spec.replicas > 0 {
      PromotionBounds(spec.maxWeight, s.canary.value.available, spec.replicas);
    }
  }

  lemma {:induction false} PromotionBounds(max: int, available: int, replicas: int)
    requires max >= 1 && available >= 0 && replicas > 0
    ensures (max * available) / replicas >= 0
    ensures (max * available) / replicas <= max <==> max * available < (max + 1) * replicas
  {
    MulMonotone(0, available, max);
    DivAtLeast(max * available, 0, replicas);
    if max * available >= (max + 1) * replicas {
      DivAtLeast(max * available, max + 1, replicas);
    } else {
      assert ((max * available) / replicas) * replicas <= max * available;
    }
  }

  /** Five canary pods for a rollout of four: the weight asked for is 125 of 100, and an abort that finds half of the
      stable pods still asks for it. */
  lemma {:induction false} OvershootExample()
    ensures
      var spec := Spec(100, 4, true, false, [Some(20)], None, "canary", "stable");
      var stable, canary := View("a", 4, 4), View("b", 5, 5);
      var s := Situation(Some(stable), Some(canary), None, false, false, false, true, Some(0), true, []);
      && ValidSpec(spec) && Overshoots(spec, s) && DesiredWeight(spec, s) == Some(125)
      && var w := Weights(Destination("canary", "b", 125), Destination("stable", "a", -25), [], None);
      var aborted := s.(stable := Some(View("a", 4, 2)), weights := Some(w), promoteFull := false, statusAbort := true,
                        aborted := true);
      KeepsRecorded(spec, aborted) && DesiredWeight(spec, aborted) == Some(125)
  {
    var spec := Spec(100, 4, true, false, [Some(20)], None, "canary", "stable");
    assert NextLowerStep(spec, 5, 1) == 20;
  }

  // ---------------------------------------------------------------------------------------------
  // Runs

  /** One reconcile: what it found and what the rollout asked for then, whether traffic routing was configured, how
      asking the routers ended, and whether the status was stored in the end. */
  datatype Event = Event(spec: Spec, s: Situation, routed: bool, end: End, after: Option<Weights>, stored: bool)

  ghost predicate Happens(e: Event, before: Option<Weights>, after: Option<Weights>) {
    && ValidSpec(e.spec) && e.s.weights == before
    && (if e.routed then Routed(e.spec, e.s, e.end, e.after) else e.after == None)
    && after == if e.end == Done && e.stored then e.after else before
  }

  /** A run of a rollout, whose specification may change at any time, from the moment no weights are recorded. */
  ghost predicate IsRun(events: seq<Event>, recorded: seq<Option<Weights>>) {
    && |recorded| == |events| + 1 && recorded[0] == None
    && forall i :: 0 <= i < |events| ==> Happens(events[i], recorded[i], recorded[i + 1])
  }

  /** The rollout is aborted, or back on its stable version, while traffic routing is configured. */
  predicate Withdraws(e: Event) {
    e.routed && (e.s.aborted || e.s.fullyPromoted)
  }

  lemma {:induction false} WeightsNeverNegative(events: seq<Event>, recorded: seq<Option<Weights>>, i: nat)
    requires IsRun(events, recorded) && i < |recorded|
    ensures NeverNegative(recorded[i])
  {
    hide DesiredWeight, StableCarries, TotalWeight, SharesWithExperiment, CanaryHash, ValidSpec;
    if i > 0 {
      WeightsNeverNegative(events, recorded, i - 1);
      var e := events[i - 1];
      assert Happens(e, recorded[i - 1], recorded[i]);
      if DesiredWeight(e.spec, e.s).Some? {
        WeightWithinBounds(e.spec, e.s);
      }
    }
  }

  /** In every run, the recorded canary share never grows while the rollout stays aborted, however availability and the
      specification move and whatever fails. */
  lemma {:induction false} ShareNeverGrows(events: seq<Event>, recorded: seq<Option<Weights>>, i: nat, j: nat)
    requires IsRun(events, recorded) && i <= j < |recorded| && recorded[i].Some?
    requires forall k :: i <= k < j ==> Withdraws(events[k])
    ensures recorded[j].Some? && 0 <= recorded[j].value.canary.weight <= recorded[i].value.canary.weight
  {
    hide DesiredWeight, StableCarries, TotalWeight, SharesWithExperiment, ValidSpec, CanaryHash;
    WeightsNeverNegative(events, recorded, i);
    if i < j {
      ShareNeverGrows(events, recorded, i, j - 1);
      var e := events[j - 1];
      assert Happens(e, recorded[j - 1], recorded[j]) && Withdraws(e);
      AbortNeverRaises(e.spec, e.s);
    }
  }

  /** With dynamic stable scaling, a reconcile that meets no failure records exactly the weight the abort asks for. */
  lemma {:induction false} AbortFollowsStable(events: seq<Event>, recorded: seq<Option<Weights>>, i: nat)
    requires IsRun(events, recorded) && i < |events| && recorded[i].Some?
    requires events[i].routed && events[i].end == Done && events[i].stored
    requires events[i].s.aborted && !events[i].s.fullyPromoted
    requires events[i].spec.dynamicStableScale && events[i].spec.replicas > 0
    requires events[i].s.stable.Some? && events[i].s.canary.Some?
    ensures ValidSpec(events[i].spec) && recorded[i + 1].Some?
    ensures recorded[i + 1].value.canary.weight == WeightOnAbort(events[i].spec, events[i].s)
  {
    hide WeightOnAbort, TotalWeight, SharesWithExperiment, CanaryHash, CheckReplicasAvailable, ValidSpec;
    var spec, s := events[i].spec, events[i].s;
    assert Happens(events[i], recorded[i], recorded[i + 1]);
    WeightsNeverNegative(events, recorded, i);
    AbortBounds(spec, s);
    assert DesiredWeight(spec, s) == Some(WeightOnAbort(spec, s));
    if WeightOnAbort(spec, s) < s.weights.value.canary.weight {
      LoweringIsNeverBlocked(spec, s);
    }
  }
}
