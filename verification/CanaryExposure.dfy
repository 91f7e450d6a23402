/** How much traffic a canary update is exposed to, over whole runs of its steps. */
module CanaryExposure {
  import opened Prelude
  import opened CanaryPromotion
  import opened CanaryPromotionProperties
  import opened TrafficWeights
  import TrafficRouting

  /** While an update that nothing forced is under way and has available pods, the weight traffic routing asks for is
      that of the last setWeight step among those that were completed, one after another, since the steps last started
      anew, and the current one, which counts once the canary has its pods. Only after all steps were completed, with
      all pods, it is the maximum. */
  lemma {:induction false} ExposureFollowsSteps(events: seq<Event>, states: seq<Status>, i: nat,
      spec: TrafficRouting.Spec, s: TrafficRouting.Situation)
    returns (times: seq<nat>)
    requires IsRun(events, states) && i < |states| && Updating(states[i]) && !ForcedBefore(events, states, i)
    requires TrafficRouting.ValidSpec(spec) && Meets(spec, s, states[i], states[i].steps.value) && Progresses(s)
    ensures CompletedInOrder(events, states, i, times) && |times| <= |spec.steps|
    ensures TrafficRouting.DesiredWeight(spec, s).Some?
    ensures
      var weight := TrafficRouting.DesiredWeight(spec, s).value;
      if s.atDesired && |times| == |spec.steps| then weight == spec.maxWeight
      else IsWeightBefore(spec.steps, |times| + (if s.atDesired then 1 else 0), weight)
  {
    hide ForcedBefore, CompletedInOrder, IsWeightBefore, TrafficRouting.DesiredWeight, TrafficRouting.ValidSpec;
    times := InvHolds(events, states, i);
    WeightFollowsSteps(spec, s);
  }
}
