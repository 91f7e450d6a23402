/** Traffic weights of a canary rollout: which weight a reconcile asks the routers for, when it may ask, and what
    it records. */
module TrafficRouting {
  import opened Prelude
  import opened Sorting

  datatype Destination = Destination(service: string, hash: string, weight: int)

  datatype Weights = Weights(canary: Destination, stable: Destination, additional: seq<Destination>,
                             verified: Option<bool>)

  /** A ReplicaSet as routing sees it. */
  datatype View = View(hash: string, replicas: nat, available: nat)

  datatype Threshold = Percentage(value: int) | Pods(value: int)

  /** What the rollout asks for; `steps` holds the weight of each setWeight step and nothing for any other step. */
  datatype Spec = Spec(
    maxWeight: int, replicas: nat, dynamicStableScale: bool, explicitAbortDelay: bool, steps: seq<Option<int>>,
    threshold: Option<Threshold>, canaryService: string, stableService: string)

  /** What one reconcile finds: the two ReplicaSets, the recorded weights and step index, and the flags of the status.
      `statusAbort` is the stored flag, `aborted` also counts what this reconcile decided. */
  datatype Situation = Situation(
    stable: Option<View>, canary: Option<View>, weights: Option<Weights>, statusAbort: bool, aborted: bool,
    fullyPromoted: bool, promoteFull: bool, statusIndex: Option<nat>, atDesired: bool, experiment: seq<Destination>)

  /** What validation lets through. */
  predicate ValidSpec(spec: Spec) {
    && spec.maxWeight >= 1
    && forall i :: 0 <= i < |spec.steps| && spec.steps[i].Some? ==> 0 <= spec.steps[i].value <= spec.maxWeight
  }

  /** The current step index: absent without steps, and 0 while none is recorded. Nothing keeps it within the steps. */
  function Index(spec: Spec, s: Situation): Option<nat> {
    if spec.steps == [] then None else if s.statusIndex.Some? then s.statusIndex else Some(0)
  }

  function HashOf(rs: Option<View>): string {
    if rs.Some? then rs.value.hash else ""
  }

  // ---------------------------------------------------------------------------------------------
  // The stable side

  /** Pods needed to carry a weight, rounded up. */
  function ReplicasFor(weight: int, spec: Spec): int
    requires spec.maxWeight >= 1
  {
    (weight * spec.replicas + spec.maxWeight - 1) / spec.maxWeight
  }

  predicate ThresholdMet(threshold: Option<Threshold>, rs: View, desired: int) {
    if threshold == None || threshold.value.value < 0 then
      rs.replicas == desired && rs.available == desired
    else match threshold.value
      case Percentage(value) => desired == 0 || (desired > 0 && rs.available * 100 >= value * desired)
      case Pods(value) => rs.available >= value
  }

  predicate CheckReplicasAvailable(spec: Spec, rs: Option<View>, desiredWeight: int)
    requires spec.maxWeight >= 1
  {
    rs.Some? &&
    var desired := GoDiv(desiredWeight * spec.replicas, spec.maxWeight);
    rs.value.available >= desired || ThresholdMet(spec.threshold, rs.value, desired)
  }

  /** The weight as many stable pods as are available can carry. */
  function StableWeight(spec: Spec, stable: View): int
    requires spec.replicas > 0 && spec.maxWeight >= 1
  {
    (spec.maxWeight * stable.available) / spec.replicas
  }

  // ---------------------------------------------------------------------------------------------
  // The weight to ask for

  /** The weight of the last setWeight step among the first `n`, and 0 without one. The search starts at step `n - 1`
      and fails at run time when there is no such step. */
  function LastWeight(steps: seq<Option<int>>, n: nat): (weight: Option<int>)
    ensures weight == None <==> n > |steps|
  {
    if n == 0 then Some(0)
    else if n > |steps| then None
    else if steps[n - 1].Some? then steps[n - 1]
    else LastWeight(steps, n - 1)
  }

  /** The weight of the last setWeight step, among the first `n`, that fewer than `pods` pods can carry. */
  function NextLowerStep(spec: Spec, pods: int, n: nat): int
    requires ValidSpec(spec) && n <= |spec.steps|
  {
    if n == 0 then 0
    else if spec.steps[n - 1].Some? && ReplicasFor(spec.steps[n - 1].value, spec) < pods then spec.steps[n - 1].value
    else NextLowerStep(spec, pods, n - 1)
  }

  function CurrentSetWeight(spec: Spec, s: Situation): int {
    if s.statusAbort then 0
    else if Index(spec, s) == None || Index(spec, s).value >= |spec.steps| then spec.maxWeight
    else LastWeight(spec.steps, Index(spec, s).value + 1).value
  }

  /** The weight an abort steps down to, from the pods the canary still has or the stable side still lacks. */
  function DesiredCanaryWeight(spec: Spec, s: Situation): int
    requires ValidSpec(spec)
  {
    if s.statusAbort && spec.dynamicStableScale && s.canary.Some? && s.stable.Some? then
      var lacking := spec.replicas - s.stable.value.available;
      var pods := if spec.explicitAbortDelay then lacking else Max(lacking, s.canary.value.available);
      NextLowerStep(spec, pods, |spec.steps|)
    else CurrentSetWeight(spec, s)
  }

  /** The weight while the rollout is aborted or going back to stable. */
  function WeightOnAbort(spec: Spec, s: Situation): int
    requires ValidSpec(spec)
  {
    if !spec.dynamicStableScale || s.stable == None || s.canary == None || spec.replicas == 0 then 0
    else
      var desired := DesiredCanaryWeight(spec, s);
      var carried := StableWeight(spec, s.stable.value);
      var expected := Max(0, spec.maxWeight - carried);
      if s.weights == None then Max(expected, desired)
      else if desired <= 0 then Min(expected, s.weights.value.canary.weight)
      else if carried < spec.maxWeight - desired then s.weights.value.canary.weight
      else Min(desired, s.weights.value.canary.weight)
  }

  /** The canary traffic still goes to another hash than the desired one, although the rollout is back on stable. */
  predicate Interrupted(spec: Spec, s: Situation) {
    && s.fullyPromoted && spec.dynamicStableScale && s.weights.Some?
    && s.weights.value.canary.hash != HashOf(s.canary)
  }

  /** A canary update with dynamic stable scaling was interrupted and goes back to the stable ReplicaSet. */
  predicate RollingBack(spec: Spec, s: Situation) {
    Interrupted(spec, s) && s.canary.Some? && s.canary.value.available < spec.replicas
  }

  predicate Unavailable(s: Situation) {
    s.canary == None || s.canary.value.available == 0
  }

  /** The branches that give experiment templates a share of the traffic. */
  predicate SharesWithExperiment(spec: Spec, s: Situation) {
    && !s.fullyPromoted && !s.aborted
    && (|| Unavailable(s)
        || (!s.promoteFull && Index(spec, s).Some? && (!s.atDesired || Index(spec, s).value != |spec.steps|)))
  }

  /** The weight to ask for; nothing when computing it fails at run time. */
  function DesiredWeight(spec: Spec, s: Situation): Option<int>
    requires ValidSpec(spec)
  {
    if Interrupted(spec, s) && s.canary == None then None
    else if RollingBack(spec, s) then Some(WeightOnAbort(spec, s))
    else if s.fullyPromoted then Some(0)
    else if s.aborted then Some(WeightOnAbort(spec, s))
    else if Unavailable(s) then Some(0)
    else if s.promoteFull then
      if spec.dynamicStableScale then
        if spec.replicas == 0 then None else Some((spec.maxWeight * s.canary.value.available) / spec.replicas)
      else if s.weights.Some? then Some(s.weights.value.canary.weight)
      else Some(0)
    else if Index(spec, s) == None then Some(0)
    else if !s.atDesired then LastWeight(spec.steps, Index(spec, s).value)
    else if Index(spec, s).value != |spec.steps| then Some(CurrentSetWeight(spec, s))
    else Some(spec.maxWeight)
  }

  method FindLastWeight(steps: seq<Option<int>>, n: nat) returns (weight: Option<int>)
    ensures weight == LastWeight(steps, n)
  {
    var i := n;
    while i > 0
      invariant 0 <= i <= n && LastWeight(steps, i) == LastWeight(steps, n)
    {
      i := i - 1;
      if i >= |steps| {
        return None;
      }
      if steps[i].Some? {
        return steps[i];
      }
    }
    return Some(0);
  }

  method FindNextLowerStep(spec: Spec, pods: int) returns (weight: int)
    requires ValidSpec(spec)
    ensures weight == NextLowerStep(spec, pods, |spec.steps|)
  {
    weight := 0;
    var i := |spec.steps|;
    while i > 0
      invariant 0 <= i <= |spec.steps| && NextLowerStep(spec, pods, i) == NextLowerStep(spec, pods, |spec.steps|)
    {
      i := i - 1;
      if spec.steps[i].Some? && ReplicasFor(spec.steps[i].value, spec) < pods {
        return spec.steps[i].value;
      }
    }
  }

  const Weight: Destination -> int := (d: Destination) => d.weight

  function TotalWeight(w: Weights): int {
    w.canary.weight + w.stable.weight + SumBy(w.additional, Weight)
  }

  /** The weights to record, which share out exactly the maximum, and whether they differ from those recorded. */
  method CalculateWeightStatus(spec: Spec, prev: Option<Weights>, canaryHash: string, stableHash: string,
      desiredWeight: int, destinations: seq<Destination>)
    returns (modified: bool, weights: Weights)
    ensures weights.canary == Destination(spec.canaryService, canaryHash, desiredWeight)
    ensures weights.stable.service == spec.stableService && weights.stable.hash == stableHash
    ensures weights.additional == destinations && weights.verified == None
    ensures TotalWeight(weights) == spec.maxWeight
    ensures weights.stable.weight == spec.maxWeight - desiredWeight - SumBy(destinations, Weight)
    ensures !modified <==> prev.Some? && prev.value == weights.(verified := prev.value.verified)
  {
    var canary := Destination(spec.canaryService, canaryHash, desiredWeight);
    var stableWeight := spec.maxWeight - desiredWeight;
    var additional := [];
    for i := 0 to |destinations|
      invariant additional == destinations[..i]
      invariant stableWeight == spec.maxWeight - desiredWeight - SumBy(destinations[..i], Weight)
    {
      additional := additional + [destinations[i]];
      stableWeight := stableWeight - destinations[i].weight;
      assert destinations[..i + 1] == destinations[..i] + [destinations[i]];
      SumByAppend(destinations[..i], [destinations[i]], Weight);
    }
    assert destinations[..|destinations|] == destinations;
    var stable := Destination(spec.stableService, stableHash, stableWeight);
    weights := Weights(canary, stable, additional, None);
    modified := prev == None || prev.value.canary != canary || prev.value.stable != stable
      || prev.value.additional != additional;
  }

  // ---------------------------------------------------------------------------------------------
  // One reconcile

  datatype Verification = VerifyFailed | NotVerifiable | Verified | NotYet

  /** How one router answers; a flag that is false is an error. */
  datatype Router = Router(removeRoutes: bool, ensureTargets: bool, routes: bool, resetWeight: bool, updateHash: bool,
                           setWeight: bool, verify: Verification)

  /** A router that answers without error and does not report an unverified weight. */
  predicate Healthy(r: Router) {
    r.removeRoutes && r.ensureTargets && r.routes && r.resetWeight && r.updateHash && r.setWeight && r.verify != NotYet
  }

  /** How a reconcile ends: it goes on, returns an error, or fails at run time. Only the first stores a status. */
  datatype End = Done | Failed | Panicked

  function CanaryHash(spec: Spec, s: Situation): string {
    if RollingBack(spec, s) then s.weights.value.canary.hash else HashOf(s.canary)
  }

  function Destinations(spec: Spec, s: Situation): seq<Destination> {
    if SharesWithExperiment(spec, s) then s.experiment else []
  }

  /** The weights a reconcile records when it asks for its desired weight. */
  ghost predicate Recorded(spec: Spec, s: Situation, w: Weights)
    requires ValidSpec(spec)
  {
    && DesiredWeight(spec, s) == Some(w.canary.weight)
    && w.canary == Destination(spec.canaryService, CanaryHash(spec, s), w.canary.weight)
    && w.stable.service == spec.stableService && w.stable.hash == HashOf(s.stable)
    && w.additional == Destinations(spec, s)
    && TotalWeight(w) == spec.maxWeight
  }

  /** The stable side can carry what the desired weight leaves it. */
  predicate StableCarries(spec: Spec, s: Situation)
    requires ValidSpec(spec)
  {
    var weight := DesiredWeight(spec, s);
    weight.Some? && CheckReplicasAvailable(spec, s.stable, spec.maxWeight - weight.value)
  }

  /** Every call that the branch of the desired weight makes is answered without error. */
  predicate BranchSucceeds(spec: Spec, s: Situation, weight: int, r: Router) {
    if RollingBack(spec, s) then true
    else if s.fullyPromoted then r.removeRoutes
    else if s.aborted then ((spec.dynamicStableScale && weight != 0) || r.ensureTargets) && r.removeRoutes
    else Unavailable(s) || s.promoteFull ==> r.removeRoutes
  }

  /** Traffic has to leave an empty canary before the hash of the canary changes. */
  predicate ResetsWeight(s: Situation) {
    Unavailable(s) && s.weights.Some? && s.weights.value.canary.weight > 0
  }

  /** How asking one router ends. A full weight that is not verified looks the recorded index up, recorded or not. */
  function RouteEnd(spec: Spec, s: Situation, r: Router): End
    requires ValidSpec(spec)
  {
    var weight := DesiredWeight(spec, s);
    if weight == None then Panicked
    else if !BranchSucceeds(spec, s, weight.value, r) then Failed
    else if !StableCarries(spec, s) then Done
    else if !r.routes || (ResetsWeight(s) && !r.resetWeight) || !r.updateHash || !r.setWeight then Failed
    else if !r.verify.NotYet? || weight.value != spec.maxWeight then Done
    else if s.statusIndex == None then Panicked
    else if |spec.steps| >= s.statusIndex.value then Failed
    else Done
  }

  /** How asking the routers in turn ends: at the first that does not go on, or that ends the pass without error. */
  function RoutersEnd(spec: Spec, s: Situation, routers: seq<Router>): End
    requires ValidSpec(spec)
  {
    if routers == [] then Done
    else
      var end := RouteEnd(spec, s, routers[0]);
      if end != Done || EndsPass(spec, s, routers[0]) then end else RoutersEnd(spec, s, routers[1..])
  }

  /** A router that goes on, but is the last to be asked. */
  predicate EndsPass(spec: Spec, s: Situation, r: Router)
    requires ValidSpec(spec)
  {
    r.verify.VerifyFailed? || !StableCarries(spec, s)
  }

  /** What a reconcile leaves recorded: what was there, or its own weights; its own for certain when nothing failed
      and the stable side carries the rest. */
  ghost predicate Routed(spec: Spec, s: Situation, end: End, weights: Option<Weights>)
    requires ValidSpec(spec)
  {
    && (weights == s.weights || (weights.Some? && Recorded(spec, s, weights.value)))
    && (!StableCarries(spec, s) ==> weights == s.weights)
    && (end == Done && StableCarries(spec, s) ==> weights.Some? && Recorded(spec, s, weights.value))
    && (end == Done ==> DesiredWeight(spec, s).Some?)
  }

  lemma {:induction false} DoneHasWeight(spec: Spec, s: Situation, router: Router)
    requires ValidSpec(spec)
    ensures RouteEnd(spec, s, router) == Done ==> DesiredWeight(spec, s).Some?
  {
    hide DesiredWeight, StableCarries, BranchSucceeds;
  }

  class TrafficContext {
    /** The weights in the status that this reconcile is preparing. */
    var weights: Option<Weights>

    /** Every weight a router was asked for, in order. */
    var asked: seq<int>

    constructor (recorded: Option<Weights>)
      ensures weights == recorded && asked == []
    {
      weights, asked := recorded, [];
    }

    method CalculateDesiredWeight(spec: Spec, s: Situation, router: Router)
      returns (weight: Option<int>, destinations: seq<Destination>, ok: bool)
      requires ValidSpec(spec)
      ensures weight == DesiredWeight(spec, s)
      ensures weight.Some? ==> destinations == Destinations(spec, s)
      ensures weight.Some? ==> (ok <==> BranchSucceeds(spec, s, weight.value, router))
    {
      weight, destinations, ok := Some(0), [], true;
      if Interrupted(spec, s) && s.canary == None {
        return None, [], false;
      } else if RollingBack(spec, s) {
        var onAbort := CalculateWeightOnAbort(spec, s);
        weight := Some(onAbort);
      } else if s.fullyPromoted {
        ok := router.removeRoutes;
      } else if s.aborted {
        var onAbort := CalculateWeightOnAbort(spec, s);
        weight := Some(onAbort);
        ok := (spec.dynamicStableScale && onAbort != 0) || router.ensureTargets;
        ok := ok && router.removeRoutes;
      } else if Unavailable(s) {
        destinations := s.experiment;
        ok := router.removeRoutes;
      } else if s.promoteFull {
        if spec.dynamicStableScale {
          if spec.replicas == 0 {
            return None, [], false;
          }
          weight := Some((spec.maxWeight * s.canary.value.available) / spec.replicas);
        } else if s.weights.Some? {
          weight := Some(s.weights.value.canary.weight);
        }
        ok := router.removeRoutes;
      } else if Index(spec, s).Some? {
        if !s.atDesired {
          weight := FindLastWeight(spec.steps, Index(spec, s).value);
          destinations := s.experiment;
        } else if Index(spec, s).value != |spec.steps| {
          var current := GetCurrentSetWeight(spec, s);
          weight := Some(current);
          destinations := s.experiment;
        } else {
          weight := Some(spec.maxWeight);
        }
      }
    }

    method GetCurrentSetWeight(spec: Spec, s: Situation) returns (weight: int)
      ensures weight == CurrentSetWeight(spec, s)
    {
      if s.statusAbort {
        return 0;
      }
      if Index(spec, s) == None || Index(spec, s).value >= |spec.steps| {
        return spec.maxWeight;
      }
      var last := FindLastWeight(spec.steps, Index(spec, s).value + 1);
      return last.value;
    }

    method CalculateWeightOnAbort(spec: Spec, s: Situation) returns (weight: int)
      requires ValidSpec(spec)
      ensures weight == WeightOnAbort(spec, s)
    {
      if !spec.dynamicStableScale || s.stable == None || s.canary == None || spec.replicas == 0 {
        return 0;
      }
      var desired;
      if s.statusAbort {
        var lacking := spec.replicas - s.stable.value.available;
        var pods := if spec.explicitAbortDelay then lacking else Max(lacking, s.canary.value.available);
        desired := FindNextLowerStep(spec, pods);
      } else {
        desired := GetCurrentSetWeight(spec, s);
      }
      var carried := StableWeight(spec, s.stable.value);
      var expected := Max(0, spec.maxWeight - carried);
      if s.weights == None {
        return Max(expected, desired);
      }
      var current := s.weights.value.canary.weight;
      if desired <= 0 {
        return Min(expected, current);
      }
      if carried < spec.maxWeight - desired {
        return current;
      }
      return Min(desired, current);
    }

    method RecordWeights(spec: Spec, s: Situation, weight: int, destinations: seq<Destination>, verify: Verification)
      requires ValidSpec(spec) && DesiredWeight(spec, s) == Some(weight) && destinations == Destinations(spec, s)
      requires weights == s.weights || (weights.Some? && Recorded(spec, s, weights.value))
      modifies this`weights
      ensures weights.Some? && Recorded(spec, s, weights.value)
    {
      hide DesiredWeight, SharesWithExperiment, RollingBack, ValidSpec;
      var canaryHash, stableHash := CanaryHash(spec, s), HashOf(s.stable);
      var modified, newWeights := CalculateWeightStatus(spec, s.weights, canaryHash, stableHash, weight, destinations);
      if modified {
        weights := Some(newWeights);
      }
      weights := Some(weights.value.(verified :=
        if verify.Verified? then Some(true) else if verify.NotYet? then Some(false) else None));
    }

    /** Ask one router. */
    method Route(spec: Spec, s: Situation, router: Router) returns (end: End)
      requires ValidSpec(spec)
      requires weights == s.weights || (weights.Some? && Recorded(spec, s, weights.value))
      modifies this
      ensures end == RouteEnd(spec, s, router)
      ensures AskedOnly(old(asked), asked, DesiredWeight(spec, s))
      ensures weights == old(weights) || (weights.Some? && Recorded(spec, s, weights.value))
      ensures StableCarries(spec, s) && end == Done ==> weights.Some? && Recorded(spec, s, weights.value)
      ensures !StableCarries(spec, s) ==> weights == old(weights) && asked == old(asked)
    {
      var desired, destinations, ok := CalculateDesiredWeight(spec, s, router);
      hide DesiredWeight, SharesWithExperiment, RollingBack, CheckReplicasAvailable, TotalWeight, ValidSpec,
        BranchSucceeds;
      if desired == None {
        return Panicked;
      }
      var weight := desired.value;
      if !ok {
        return Failed;
      }
      if !CheckReplicasAvailable(spec, s.stable, spec.maxWeight - weight) {
        return Done;
      }
      if !router.routes {
        return Failed;
      }
      if ResetsWeight(s) {
        asked := asked + [weight];
        if !router.resetWeight {
          return Failed;
        }
      }
      if !router.updateHash {
        return Failed;
      }
      asked := asked + [weight];
      if !router.setWeight {
        return Failed;
      }
      RecordWeights(spec, s, weight, destinations, router.verify);
      if router.verify.NotYet? && weight == spec.maxWeight {
        if s.statusIndex == None {
          return Panicked;
        }
        if |spec.steps| >= s.statusIndex.value {
          return Failed;
        }
      }
      return Done;
    }

    /** Ask every router for the desired weight and record it. A router is asked only while the stable side can carry
        the rest; then, unless something fails, the recorded weights are those of this reconcile. */
    method ReconcileTrafficRouting(spec: Spec, s: Situation, routers: seq<Router>) returns (end: End)
      requires ValidSpec(spec) && weights == s.weights
      modifies this
      ensures end == RoutersEnd(spec, s, routers)
      ensures routers == [] ==> weights == None && asked == old(asked)
      ensures AskedOnly(old(asked), asked, DesiredWeight(spec, s))
      ensures asked != old(asked) ==> StableCarries(spec, s)
      ensures routers != [] ==> Routed(spec, s, end, weights)
    {
      hide DesiredWeight, StableCarries, SharesWithExperiment, RouteEnd;
      if routers == [] {
        weights := None;
        return Done;
      }
      for i := 0 to |routers|
        invariant RoutersEnd(spec, s, routers[i..]) == RoutersEnd(spec, s, routers)
        invariant AskedOnly(old(asked), asked, DesiredWeight(spec, s))
        invariant asked != old(asked) ==> StableCarries(spec, s)
        invariant i == 0 ==> weights == s.weights && asked == old(asked)
        invariant i > 0 ==> StableCarries(spec, s) && weights.Some? && Recorded(spec, s, weights.value)
        invariant i > 0 ==> DesiredWeight(spec, s).Some?
      {
        ghost var before := asked;
        end := Route(spec, s, routers[i]);
        AskedMore(old(asked), before, asked, DesiredWeight(spec, s));
        DoneHasWeight(spec, s, routers[i]);
        assert routers[i..][1..] == routers[i + 1..];
        if end != Done || EndsPass(spec, s, routers[i]) {
          return;
        }
      }
      end := Done;
    }
  }

  /** The routers were asked for `weight` alone, any number of times. */
  ghost predicate AskedOnly(before: seq<int>, after: seq<int>, weight: Option<int>) {
    && |after| >= |before| && after[..|before|] == before
    && forall k :: |before| <= k < |after| ==> Some(after[k]) == weight
  }

  lemma {:induction false} AskedMore(first: seq<int>, second: seq<int>, third: seq<int>, weight: Option<int>)
    requires AskedOnly(first, second, weight) && AskedOnly(second, third, weight)
    ensures AskedOnly(first, third, weight)
  {
    assert third[..|first|] == third[..|second|][..|first|];
  }
}
