/** Which weight traffic routing asks for, told from the steps and the pods: while a canary goes through its steps, when
    it is promoted in full, and when it is withdrawn. */
module TrafficWeights {
  import opened Prelude
  import opened TrafficRouting
  import opened TrafficRoutingProperties

  // ---------------------------------------------------------------------------------------------
  // A canary that goes through its steps

  /** The step at `k` is the last setWeight step before step `n`. */
  predicate IsLastSet(steps: seq<Option<int>>, k: nat, n: nat)
    requires n <= |steps|
  {
    k < n && steps[k].Some? && forall j :: k < j < n ==> steps[j] == None
  }

  predicate NoneSet(steps: seq<Option<int>>, n: nat)
    requires n <= |steps|
  {
    forall j :: 0 <= j < n ==> steps[j] == None
  }

  /** `weight` is what the last setWeight step before step `n` asks for, and nothing without one. */
  ghost predicate IsWeightBefore(steps: seq<Option<int>>, n: nat, weight: int)
    requires n <= |steps|
  {
    if NoneSet(steps, n) then weight == 0 else exists k: nat :: IsLastSet(steps, k, n) && steps[k] == Some(weight)
  }

  lemma {:induction false} SearchTells(steps: seq<Option<int>>, n: nat)
    requires n <= |steps|
    ensures IsWeightBefore(steps, n, LastWeight(steps, n).value)
  {
    if n > 0 {
      if steps[n - 1].Some? {
        assert IsLastSet(steps, n - 1, n);
      } else {
        SearchTells(steps, n - 1);
        if !NoneSet(steps, n - 1) {
          var k: nat :| IsLastSet(steps, k, n - 1) && steps[k] == LastWeight(steps, n - 1);
          assert IsLastSet(steps, k, n);
        }
      }
    }
  }

  /** The recorded step; a rollout that has none recorded is at its first. */
  function StepOf(s: Situation): nat {
    match s.statusIndex
    case None => 0
    case Some(index) => index
  }

  /** A canary with available pods, of an update that is neither aborted nor promoted in full. */
  predicate Progresses(s: Situation) {
    && s.canary.Some? && s.canary.value.available > 0
    && !s.statusAbort && !s.aborted && !s.fullyPromoted && !s.promoteFull
  }

  /** With the pods it should have, a canary at a step gets the weight of the last setWeight step up to that one, and
      the maximum at the end of the steps. While it lacks pods, it gets the weight of the last one before its step. */
  lemma {:induction false} WeightFollowsSteps(spec: Spec, s: Situation)
    requires ValidSpec(spec) && Progresses(s) && spec.steps != []
    ensures s.atDesired && StepOf(s) < |spec.steps| ==>
      DesiredWeight(spec, s).Some? && IsWeightBefore(spec.steps, StepOf(s) + 1, DesiredWeight(spec, s).value)
    ensures s.atDesired && StepOf(s) >= |spec.steps| ==> DesiredWeight(spec, s) == Some(spec.maxWeight)
    ensures !s.atDesired && StepOf(s) <= |spec.steps| ==>
      DesiredWeight(spec, s).Some? && IsWeightBefore(spec.steps, StepOf(s), DesiredWeight(spec, s).value)
    ensures !s.atDesired && StepOf(s) > |spec.steps| ==> DesiredWeight(spec, s) == None
  {
    hide LastWeight, IsWeightBefore;
    if StepOf(s) < |spec.steps| {
      SearchTells(spec.steps, StepOf(s) + 1);
    }
    if StepOf(s) <= |spec.steps| {
      SearchTells(spec.steps, StepOf(s));
    }
  }

  /** A canary without steps gets no weight before it is promoted; one without available pods never does, unless the
      rollout goes back. */
  lemma {:induction false} NothingToShare(spec: Spec, s: Situation)
    requires ValidSpec(spec) && !s.aborted && !s.fullyPromoted
    requires s.canary == None || s.canary.value.available == 0 || (spec.steps == [] && !s.promoteFull)
    ensures DesiredWeight(spec, s) == Some(0)
  {
  }

  /** A full promotion with a dynamic stable side gives the canary the part of the maximum that its available pods are
      of the rollout's, rounded down; with a fixed stable side it keeps the weight it has. */
  lemma {:induction false} PromotedInFull(spec: Spec, s: Situation)
    requires ValidSpec(spec) && !s.aborted && !s.fullyPromoted && s.promoteFull
    requires s.canary.Some? && s.canary.value.available > 0
    ensures !spec.dynamicStableScale ==>
      DesiredWeight(spec, s) == Some(if s.weights.Some? then s.weights.value.canary.weight else 0)
    ensures spec.dynamicStableScale && spec.replicas > 0 ==>
      && DesiredWeight(spec, s).Some?
      && var share := spec.maxWeight * s.canary.value.available;
      DesiredWeight(spec, s).value * spec.replicas <= share < (DesiredWeight(spec, s).value + 1) * spec.replicas
  {
    if spec.dynamicStableScale && spec.replicas > 0 {
      DivisionBounds(spec.maxWeight * s.canary.value.available, spec.replicas);
    }
  }

  lemma {:induction false} DivisionBounds(a: int, d: int)
    requires d > 0
    ensures (a / d) * d <= a < (a / d + 1) * d
  {
    assert a == (a / d) * d + a % d;
  }

  // ---------------------------------------------------------------------------------------------
  // A canary that is withdrawn

  /** The rollout is back on its stable version, but with a dynamic stable side traffic still goes to the version that
      was being rolled out before, and not all pods are there yet. */
  predicate GoesBackSlowly(spec: Spec, s: Situation) {
    && s.fullyPromoted && spec.dynamicStableScale && s.weights.Some? && s.canary.Some?
    && s.weights.value.canary.hash != s.canary.value.hash && s.canary.value.available < spec.replicas
  }

  /** Withdrawing takes steps only where a dynamic stable side has to grow first. */
  predicate HasToGrow(spec: Spec, s: Situation) {
    spec.dynamicStableScale && spec.replicas > 0 && s.stable.Some? && s.canary.Some?
  }

  /** Traffic still goes to a version that is not the desired one, and the desired one has no ReplicaSet to look at. */
  predicate MissesCanary(spec: Spec, s: Situation) {
    && s.fullyPromoted && spec.dynamicStableScale && s.canary == None
    && s.weights.Some? && s.weights.value.canary.hash != ""
  }

  /** All traffic leaves at once a canary that is withdrawn from a stable side that does not have to grow, and one that
      was fully promoted. */
  lemma {:induction false} WithdrawnAtOnce(spec: Spec, s: Situation)
    requires ValidSpec(spec) && (s.aborted || s.fullyPromoted) && !MissesCanary(spec, s)
    requires if s.fullyPromoted then !GoesBackSlowly(spec, s) || s.stable == None else !HasToGrow(spec, s)
    ensures DesiredWeight(spec, s) == Some(0)
  {
  }

  /** The pods that decide how far an abort steps down: those the stable side lacks, or, unless the canary has a delay
      of its own, those the canary still has, if they are more. */
  function PodsLeft(spec: Spec, s: Situation): int
    requires s.stable.Some? && s.canary.Some?
  {
    var lacking, canary := spec.replicas - s.stable.value.available, s.canary.value.available;
    if spec.explicitAbortDelay || canary <= lacking then lacking else canary
  }

  /** Fewer than `pods` pods carry this weight. */
  predicate CarriedByLess(spec: Spec, weight: int, pods: int) {
    weight * spec.replicas <= (pods - 1) * spec.maxWeight
  }

  /** The step at `k` is the last setWeight step before `n` that fewer than `pods` pods carry. */
  predicate IsLowerStep(spec: Spec, pods: int, k: nat, n: nat)
    requires n <= |spec.steps|
  {
    && k < n && spec.steps[k].Some? && CarriedByLess(spec, spec.steps[k].value, pods)
    && forall j :: k < j < n && spec.steps[j].Some? ==> !CarriedByLess(spec, spec.steps[j].value, pods)
  }

  predicate NoLowerStep(spec: Spec, pods: int, n: nat)
    requires n <= |spec.steps|
  {
    forall j :: 0 <= j < n && spec.steps[j].Some? ==> !CarriedByLess(spec, spec.steps[j].value, pods)
  }

  ghost predicate IsLowerWeight(spec: Spec, pods: int, n: nat, weight: int)
    requires n <= |spec.steps|
  {
    if NoLowerStep(spec, pods, n) then weight == 0
    else exists k: nat :: IsLowerStep(spec, pods, k, n) && spec.steps[k] == Some(weight)
  }

  lemma {:induction false} CarriedTells(spec: Spec, weight: int, pods: int)
    requires spec.maxWeight >= 1
    ensures ReplicasFor(weight, spec) < pods <==> CarriedByLess(spec, weight, pods)
  {
    var a, d := weight * spec.replicas + spec.maxWeight - 1, spec.maxWeight;
    DivisionBounds(a, d);
    if a / d <= pods - 1 {
      MulMonotone(a / d + 1, pods, d);
      assert a < pods * d;
    } else {
      MulMonotone(pods, a / d, d);
      assert a >= pods * d;
    }
    assert pods * d == (pods - 1) * d + d;
  }

  lemma {:induction false} LowerTells(spec: Spec, pods: int, n: nat)
    requires ValidSpec(spec) && n <= |spec.steps|
    ensures IsLowerWeight(spec, pods, n, NextLowerStep(spec, pods, n))
  {
    hide ReplicasFor, CarriedByLess;
    if n > 0 {
      if spec.steps[n - 1].Some? {
        CarriedTells(spec, spec.steps[n - 1].value, pods);
      }
      if spec.steps[n - 1].Some? && CarriedByLess(spec, spec.steps[n - 1].value, pods) {
        assert IsLowerStep(spec, pods, n - 1, n);
      } else {
        LowerTells(spec, pods, n - 1);
        if !NoLowerStep(spec, pods, n - 1) {
          var k: nat :| IsLowerStep(spec, pods, k, n - 1)
            && spec.steps[k] == Some(NextLowerStep(spec, pods, n - 1));
          assert IsLowerStep(spec, pods, k, n);
        }
      }
    }
  }

  /** The weight an abort steps down to: after the abort is stored, the last one that fewer pods carry than are left;
      before that, and on the way back to the stable version, that of the current step. */
  ghost predicate IsTarget(spec: Spec, s: Situation, target: int)
    requires s.stable.Some? && s.canary.Some?
  {
    if s.statusAbort then IsLowerWeight(spec, PodsLeft(spec, s), |spec.steps|, target)
    else if StepOf(s) < |spec.steps| then IsWeightBefore(spec.steps, StepOf(s) + 1, target)
    else target == spec.maxWeight
  }

  lemma {:induction false} TargetTells(spec: Spec, s: Situation)
    requires ValidSpec(spec) && HasToGrow(spec, s)
    ensures IsTarget(spec, s, DesiredCanaryWeight(spec, s))
  {
    hide LastWeight, IsWeightBefore, NextLowerStep, IsLowerWeight, ValidSpec;
    if s.statusAbort {
      LowerTells(spec, PodsLeft(spec, s), |spec.steps|);
    } else if StepOf(s) < |spec.steps| {
      SearchTells(spec.steps, StepOf(s) + 1);
    }
  }

  /** `weight` is the part of the maximum that the available stable pods are of the rollout's, rounded down. */
  predicate IsCarried(spec: Spec, s: Situation, weight: int)
    requires s.stable.Some?
  {
    weight * spec.replicas <= spec.maxWeight * s.stable.value.available < (weight + 1) * spec.replicas
  }

  /** Withdrawing from a stable side that has to grow: without recorded weights, the canary gets what the stable side
      cannot carry, or the target if that is more. Otherwise its share never grows; with no target, it is what the
      stable side cannot carry; with a target, it steps down to that once the stable side can carry the rest, and waits
      until then. */
  lemma {:induction false} WithdrawnInSteps(spec: Spec, s: Situation) returns (target: int, carried: int)
    requires ValidSpec(spec) && HasToGrow(spec, s)
    requires GoesBackSlowly(spec, s) || (s.aborted && !s.fullyPromoted)
    ensures IsTarget(spec, s, target) && IsCarried(spec, s, carried)
    ensures
      var uncarried := Max(0, spec.maxWeight - carried);
      DesiredWeight(spec, s) == Some(
        match s.weights
        case None => Max(uncarried, target)
        case Some(w) =>
          if target <= 0 then Min(uncarried, w.canary.weight)
          else if carried + target < spec.maxWeight then w.canary.weight
          else Min(target, w.canary.weight))
  {
    hide DesiredCanaryWeight, IsTarget;
    target, carried := DesiredCanaryWeight(spec, s), (spec.maxWeight * s.stable.value.available) / spec.replicas;
    TargetTells(spec, s);
    DivisionBounds(spec.maxWeight * s.stable.value.available, spec.replicas);
  }

  // ---------------------------------------------------------------------------------------------
  // What the routers are asked

  /** Experiments share the traffic while the canary has no available pods, and on the way through the steps. */
  lemma {:induction false} SharesOutcome(spec: Spec, s: Situation)
    ensures !s.fullyPromoted && !s.aborted && (s.canary == None || s.canary.value.available == 0) ==>
      Destinations(spec, s) == s.experiment
    ensures Progresses(s) && spec.steps != [] && !(s.atDesired && StepOf(s) == |spec.steps|) ==>
      Destinations(spec, s) == s.experiment
    ensures s.fullyPromoted || s.aborted ==> Destinations(spec, s) == []
    ensures s.canary.Some? && s.canary.value.available > 0 && (s.promoteFull || spec.steps == []) ==>
      Destinations(spec, s) == []
    ensures s.canary.Some? && s.canary.value.available > 0 && s.atDesired && StepOf(s) == |spec.steps| ==>
      Destinations(spec, s) == []
  {
  }

  /** The canary's traffic goes to the desired ReplicaSet, or on the slow way back to the one it went to before. */
  lemma {:induction false} HashOutcome(spec: Spec, s: Situation)
    ensures CanaryHash(spec, s) ==
      if GoesBackSlowly(spec, s) then s.weights.value.canary.hash
      else if s.canary.Some? then s.canary.value.hash else ""
  {
  }

  /** Enough pods for `weight`: as many available as carry it, rounded down, or as few as a threshold allows. */
  predicate EnoughFor(spec: Spec, pods: View, weight: int)
    requires spec.maxWeight >= 1
  {
    || weight * spec.replicas < (pods.available + 1) * spec.maxWeight
    || (var desired := (weight * spec.replicas) / spec.maxWeight;
        match spec.threshold
        case None => false
        case Some(Percentage(value)) => value >= 0 && value * desired <= 100 * pods.available
        case Some(Pods(value)) => value >= 0 && value <= pods.available)
  }

  lemma {:induction false} EnoughTells(spec: Spec, pods: View, weight: int)
    requires spec.maxWeight >= 1
    ensures CheckReplicasAvailable(spec, Some(pods), weight) <==> EnoughFor(spec, pods, weight)
  {
    var a, d := weight * spec.replicas, spec.maxWeight;
    DivisionBounds(a, d);
    if a < 0 {
      DivisionBounds(-a, d);
      DivAtLeast(-a, 0, d);
      MulMonotone(1, pods.available + 1, d);
    } else if a < (pods.available + 1) * d {
      if a / d > pods.available {
        MulMonotone(pods.available + 1, a / d, d);
      }
    } else {
      DivAtLeast(a, pods.available + 1, d);
    }
  }

  /** The stable side is there, and has enough pods for what the weight leaves it. */
  predicate LeavesEnough(spec: Spec, s: Situation, weight: int)
    requires spec.maxWeight >= 1
  {
    s.stable.Some? && EnoughFor(spec, s.stable.value, spec.maxWeight - weight)
  }

  lemma {:induction false} LeavesTells(spec: Spec, s: Situation, weight: int)
    requires spec.maxWeight >= 1
    ensures CheckReplicasAvailable(spec, s.stable, spec.maxWeight - weight) <==> LeavesEnough(spec, s, weight)
  {
    hide EnoughFor, ThresholdMet;
    if s.stable.Some? {
      EnoughTells(spec, s.stable.value, spec.maxWeight - weight);
    }
  }

  /** The calls that come before the weight is asked for. */
  predicate AnswersFirst(spec: Spec, s: Situation, weight: int, r: Router) {
    var empty := s.canary == None || s.canary.value.available == 0;
    && (s.fullyPromoted && !GoesBackSlowly(spec, s) ==> r.removeRoutes)
    && (!s.fullyPromoted && (s.aborted || s.promoteFull || empty) ==> r.removeRoutes)
    && (!s.fullyPromoted && s.aborted && (weight == 0 || !spec.dynamicStableScale) ==> r.ensureTargets)
  }

  /** The calls that ask for the weight. An empty canary gives its weight up before anything points to it. */
  predicate AnswersWeight(s: Situation, r: Router) {
    var empty := s.canary == None || s.canary.value.available == 0;
    && r.routes && r.updateHash && r.setWeight
    && (empty && s.weights.Some? && s.weights.value.canary.weight > 0 ==> r.resetWeight)
  }

  /** Asking a router goes on exactly when every call is answered without error, unless the stable side has too few
      pods, which leaves some out, and unless the full weight is unverified at a step. It fails at run time when there
      is no weight, or no step to compare with. */
  lemma {:induction false} RouteOutcome(spec: Spec, s: Situation, r: Router)
    requires ValidSpec(spec) && DesiredWeight(spec, s).Some?
    ensures
      var weight := DesiredWeight(spec, s).value;
      var unverified := r.verify == NotYet && weight == spec.maxWeight;
      RouteEnd(spec, s, r) ==
        if !AnswersFirst(spec, s, weight, r) then Failed
        else if !LeavesEnough(spec, s, weight) then Done
        else if !AnswersWeight(s, r) then Failed
        else if !unverified then Done
        else match s.statusIndex
             case None => Panicked
             case Some(index) => if index <= |spec.steps| then Failed else Done
  {
    hide DesiredWeight, CheckReplicasAvailable, LeavesEnough;
    LeavesTells(spec, s, DesiredWeight(spec, s).value);
  }

  // ---------------------------------------------------------------------------------------------
  // Runs

  /** In every run, a reconcile that goes through the steps, ends well and stores its status records the weight of the
      last setWeight step, before the current one while the canary lacks pods, shared out exactly; unless the stable
      side has too few pods for the rest, and then what was recorded stays. */
  lemma {:induction false} RecordedFollowsSteps(events: seq<Event>, recorded: seq<Option<Weights>>, i: nat)
    returns (weight: int)
    requires IsRun(events, recorded) && i < |events|
    requires events[i].routed && events[i].end == Done && events[i].stored
    requires Progresses(events[i].s) && StepOf(events[i].s) < |events[i].spec.steps|
    ensures ValidSpec(events[i].spec)
    ensures
      var spec, s := events[i].spec, events[i].s;
      && IsWeightBefore(spec.steps, StepOf(s) + (if s.atDesired then 1 else 0), weight)
      && (if !LeavesEnough(spec, s, weight) then recorded[i + 1] == recorded[i]
          else
            && recorded[i + 1].Some?
            && var w := recorded[i + 1].value;
            && w.canary == Destination(spec.canaryService, s.canary.value.hash, weight)
            && w.stable.service == spec.stableService && w.stable.hash == s.stable.value.hash
            && w.additional == s.experiment && TotalWeight(w) == spec.maxWeight)
  {
    hide DesiredWeight, IsWeightBefore, LeavesEnough, TotalWeight, CheckReplicasAvailable;
    var spec, s := events[i].spec, events[i].s;
    assert Happens(events[i], recorded[i], recorded[i + 1]);
    WeightFollowsSteps(spec, s);
    weight := DesiredWeight(spec, s).value;
    LeavesTells(spec, s, weight);
    NeedsStable(spec, s, weight);
    HashOutcome(spec, s);
    SharesOutcome(spec, s);
  }

  lemma {:induction false} NeedsStable(spec: Spec, s: Situation, weight: int)
    requires spec.maxWeight >= 1
    ensures LeavesEnough(spec, s, weight) ==> s.stable.Some?
  {
  }
}
