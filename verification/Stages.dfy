/** The pipeline of stages a reconcile runs before it syncs the status. */
module Stages {
  import opened Prelude

  datatype Outcome = Continue | Stop | StopNoStatus(error: Option<string>)

  datatype Stage =
    | SyncRevisionOnChange | SyncReplicaSets | PodRestart | EphemeralMetadata | RevisionHistory | PingPongService
    | StableCanaryService | TrafficRouting | Experiments | Analysis | ReplicaSetScaling | CanaryPause | StepPlugins
    | PreviewService | PodTemplateChange | ReplicaSets | Pause | ActiveService | TargetGroups

  const CANARY_STAGES: seq<Stage> := [
    SyncRevisionOnChange, SyncReplicaSets, PodRestart, EphemeralMetadata, RevisionHistory, PingPongService,
    StableCanaryService, TrafficRouting, Experiments, Analysis, ReplicaSetScaling, CanaryPause, StepPlugins]

  const BLUE_GREEN_STAGES: seq<Stage> := [
    PreviewService, PodTemplateChange, PodRestart, ReplicaSets, Pause, ActiveService, TargetGroups, Analysis,
    EphemeralMetadata]

  class Pipeline {
    /** The stages that ran, in order. */
    var ran: seq<Stage>
    var skipStatusSync: bool

    constructor ()
      ensures ran == [] && !skipStatusSync
    {
      ran, skipStatusSync := [], false;
    }

    method RunStages(stages: seq<Stage>, run: Stage -> Outcome) returns (error: Option<string>)
      requires ran == [] && !skipStatusSync
      modifies this
      ensures IsPass(stages, run, ran, skipStatusSync)
      ensures error.Some? ==> skipStatusSync && run(ran[|ran| - 1]) == StopNoStatus(error)
    {
      for i := 0 to |stages|
        invariant ran == stages[..i] && !skipStatusSync
        invariant forall k :: 0 <= k < i ==> run(stages[k]) == Continue
      {
        ran := ran + [stages[i]];
        assert ran == stages[..i + 1];
        match run(stages[i]) {
          case Continue =>
          case Stop =>
            return None;
          case StopNoStatus(err) =>
            skipStatusSync := true;
            return err;
        }
      }
      assert stages[..|stages|] == stages;
      return None;
    }
  }

  /** The stages that ran are a prefix; all but the last of them continued, the last one too unless it is where the
      pass stopped, and the status sync is skipped exactly when the last stage asks for that. */
  ghost predicate IsPass(stages: seq<Stage>, run: Stage -> Outcome, ran: seq<Stage>, skipStatusSync: bool) {
    && |ran| <= |stages| && ran == stages[..|ran|]
    && (forall k :: 0 <= k < |ran| - 1 ==> run(ran[k]) == Continue)
    && (|ran| < |stages| ==> ran != [] && run(ran[|ran| - 1]) != Continue)
    && (skipStatusSync <==> ran != [] && run(ran[|ran| - 1]).StopNoStatus?)
  }

  /** Of the blue-green stages only a change of the template stops a pass on the way to the status sync. */
  predicate OnlyTemplateStops(run: Stage -> Outcome) {
    forall i :: 0 <= i < |BLUE_GREEN_STAGES| && BLUE_GREEN_STAGES[i] != PodTemplateChange ==>
      run(BLUE_GREEN_STAGES[i]) != Stop
  }

  /** A blue-green pass that meets a change of the template moves no traffic and starts no analysis; one that reaches
      the status sync without such a change has run every stage, the switch before the verification of its targets and
      the analysis after both. */
  lemma {:induction false} TemplateChangeKeepsTraffic(run: Stage -> Outcome, ran: seq<Stage>, skipStatusSync: bool)
    requires IsPass(BLUE_GREEN_STAGES, run, ran, skipStatusSync) && OnlyTemplateStops(run)
    ensures run(PodTemplateChange) == Stop ==> ActiveService !in ran && Analysis !in ran
    ensures !skipStatusSync ==> ran == BLUE_GREEN_STAGES || (run(PodTemplateChange) == Stop && |ran| == 2)
    ensures Analysis in ran ==> run(ActiveService) == run(TargetGroups) == Continue
  {
    var n := |ran|;
    assert forall k :: 0 <= k < n ==> ran[k] == BLUE_GREEN_STAGES[k];
    if n > 2 {
      assert run(ran[1]) == Continue;
    }
    if n > 0 && n < |BLUE_GREEN_STAGES| && !skipStatusSync {
      assert run(BLUE_GREEN_STAGES[n - 1]) == Stop;
    }
    if Analysis in ran {
      assert n >= 8;
      assert run(ran[5]) == Continue && run(ran[6]) == Continue;
    }
  }

  /** Of the canary stages only a change of the template or the steps, a pause of the analysis, scaling in progress and
      a pause step stop a pass on the way to the status sync. */
  predicate OnlyFourStop(run: Stage -> Outcome) {
    forall i :: 0 <= i < |CANARY_STAGES| && run(CANARY_STAGES[i]) == Stop ==>
      CANARY_STAGES[i] in {SyncRevisionOnChange, Analysis, ReplicaSetScaling, CanaryPause}
  }

  /** A canary pass that meets a change runs nothing else; one that scales has restarted no pod and moved traffic
      before, so a failure in traffic routing keeps it from scaling; and one that reaches the status sync without a
      change has moved traffic and run the analysis. */
  lemma {:induction false} ScalingComesAfterTraffic(run: Stage -> Outcome, ran: seq<Stage>, skipStatusSync: bool)
    requires IsPass(CANARY_STAGES, run, ran, skipStatusSync) && OnlyFourStop(run)
    ensures run(SyncRevisionOnChange) == Stop ==> ran == [SyncRevisionOnChange]
    ensures ReplicaSetScaling in ran ==> run(PodRestart) == run(TrafficRouting) == run(Analysis) == Continue
    ensures run(TrafficRouting).StopNoStatus? ==>
      ReplicaSetScaling !in ran && (TrafficRouting in ran ==> skipStatusSync)
    ensures !skipStatusSync && run(SyncRevisionOnChange) != Stop ==> TrafficRouting in ran && Analysis in ran
  {
    var n := |ran|;
    assert forall k :: 0 <= k < n ==> ran[k] == CANARY_STAGES[k];
    if n > 1 {
      assert run(ran[0]) == Continue;
    }
    if n >= 11 {
      assert run(ran[2]) == Continue && run(ran[7]) == Continue && run(ran[9]) == Continue;
    } else if n > 0 {
      assert ReplicaSetScaling !in ran;
      assert run(CANARY_STAGES[n - 1]) != Continue;
      assert n >= 10 ==> ran[7] == TrafficRouting && ran[9] == Analysis;
      assert n > 8 ==> run(ran[7]) == Continue;
    }
    assert n >= 11 ==> ran[7] == TrafficRouting && ran[9] == Analysis;
  }
}
