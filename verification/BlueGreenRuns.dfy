/** Runs of a blue-green rollout: three that end where a reader would not expect them to, and one in which a failed
    analysis gives the traffic back. */
module BlueGreenRuns {
  import opened Prelude
  import opened AnalysisTypes
  import opened BlueGreen
  import opened BlueGreenAborts
  import opened BlueGreenOutcomes
  import opened BlueGreenProperties
  import opened PauseContexts
  import opened Rollback

  const A := Revision("a", 1, false)
  const B := Revision("b", 2, false)
  const C := Revision("c", 3, false)

  /** A complete pass over a healthy cluster, at time 0. */
  function Look(spec: BlueGreen.Spec, desired: Revision, stable: Option<Revision>, saturated: bool, available: nat,
      postPhase: Option<Phase>): Event
  {
    Pass(Seen(spec, desired, stable, [], false, true, saturated, available, true, true, None, postPhase, 0, 0, false),
         Complete, true)
  }

  // ---------------------------------------------------------------------------------------------
  // The trip-wire outlives its template

  /** Promotion is manual, and one preview pod is asked for. */
  const MANUAL := Spec(Some(false), 0, NotConfigured, NotConfigured, Some(1), false, None)

  const PAUSED := PauseStatus([Condition(BlueGreenPause, 0)], true, false, None)

  function Manual(stableRS: string, current: string, pauses: PauseStatus, checkpoint: bool): State {
    State(BlueGreen.Status.Status(stableRS, current, stableRS, false, pauses, checkpoint, None, None), Some(stableRS))
  }

  /** Deploy a; update to b, which pauses, is resumed and sets the trip-wire; update to c. */
  function ManualEvents(): seq<Event> {
    [Look(MANUAL, A, None, true, 4, None), Look(MANUAL, B, Some(A), false, 0, None),
     Look(MANUAL, B, Some(A), false, 1, None), Resume, Look(MANUAL, B, Some(A), false, 1, None),
     Look(MANUAL, C, Some(A), false, 0, None), Look(MANUAL, C, Some(A), true, 4, None)]
  }

  function ManualStates(): seq<State> {
    [State(NEW_ROLLOUT, None), Manual("a", "a", NO_PAUSE, false), Manual("a", "b", NO_PAUSE, false),
     Manual("a", "b", PAUSED, false), Manual("a", "b", PAUSED.(conditions := []), false),
     Manual("a", "b", NO_PAUSE, true), Manual("a", "c", NO_PAUSE, true), Manual("c", "c", NO_PAUSE, false)]
  }

  lemma {:induction false} Deploy()
    ensures Happens(Look(MANUAL, A, None, true, 4, None), State(NEW_ROLLOUT, None), Manual("a", "a", NO_PAUSE, false))
    ensures Happens(Look(MANUAL, B, Some(A), false, 0, None), Manual("a", "a", NO_PAUSE, false),
                    Manual("a", "b", NO_PAUSE, false))
  {
  }

  lemma {:induction false} Pause()
    ensures Happens(Look(MANUAL, B, Some(A), false, 1, None), Manual("a", "b", NO_PAUSE, false),
                    Manual("a", "b", PAUSED, false))
  {
    assert Kept([], []) == [] && Added([], [], 0) == [];
  }

  lemma {:induction false} ResumeB()
    ensures Happens(Resume, Manual("a", "b", PAUSED, false), Manual("a", "b", PAUSED.(conditions := []), false))
    ensures Happens(Look(MANUAL, B, Some(A), false, 1, None), Manual("a", "b", PAUSED.(conditions := []), false),
                    Manual("a", "b", NO_PAUSE, true))
  {
  }

  lemma {:induction false} UpdateToC()
    ensures Happens(Look(MANUAL, C, Some(A), false, 0, None), Manual("a", "b", NO_PAUSE, true),
                    Manual("a", "c", NO_PAUSE, true))
  {
  }

  lemma {:induction false} SwitchToC()
    ensures Happens(Look(MANUAL, C, Some(A), true, 4, None), Manual("a", "c", NO_PAUSE, true),
                    Manual("c", "c", NO_PAUSE, false))
  {
  }

  lemma {:induction false} ManualRun(events: seq<Event>, states: seq<State>)
    requires events == ManualEvents() && states == ManualStates()
    ensures IsRun(events, states)
  {
    hide Happens, Look, Manual;
    forall i | 0 <= i < 7
      ensures Happens(events[i], states[i], states[i + 1])
    {
      if i < 2 {
        Deploy();
      } else if i < 3 {
        Pause();
      } else if i < 5 {
        ResumeB();
      } else if i < 6 {
        UpdateToC();
      } else {
        SwitchToC();
      }
    }
  }

  /** The trip-wire that b set is still set for c, and lets c take the traffic although promotion is manual and nobody
      resumed a pause of c. */
  lemma {:induction false} WireOutlivesTemplate()
    ensures
      var events, states := ManualEvents(), ManualStates();
      && IsRun(events, states)
      && states[5].status.currentPodHash == "b" && states[6].status.currentPodHash == "c"
      && states[6].status.checkpoint && SurvivesChange(events, states, 4, 6)
      && states[6].active == Some("a") && states[7].active == Some("c")
      && !GoesStraight(states[6].status, states[6].active, events[6].seen)
      && !ResumedBefore(events, states, "c", 6)
  {
    hide IsRun, AsksToPause;
    ManualRun(ManualEvents(), ManualStates());
    assert Saves(ManualEvents()[5]) && MeetsChange(ManualStates()[5].status, ManualEvents()[5].seen);
  }

  // ---------------------------------------------------------------------------------------------
  // The trip-wire is set during a pause

  /** Promotion is manual, and a pre-promotion analysis is asked for. */
  const WATCHED := Spec(Some(false), 0, Configured(1), NotConfigured, None, false, None)

  const INCONCLUSIVE := PauseStatus([Condition(InconclusiveAnalysis, 0)], true, false, None)

  function Watched(current: string, pauses: PauseStatus, checkpoint: bool, pre: Option<string>): State {
    State(BlueGreen.Status.Status("a", current, "a", false, pauses, checkpoint, pre, None), Some("a"))
  }

  /** A pass that finds the pre-promotion analysis inconclusive. */
  function LookUnclear(spec: BlueGreen.Spec): Event {
    var look := Look(spec, B, Some(A), true, 1, None);
    look.(seen := look.seen.(prePhase := Some(Inconclusive)))
  }

  /** Deploy a; update to b, whose analysis starts and turns out inconclusive; then ask for a preview instead of an
      analysis. */
  function WatchedEvents(): seq<Event> {
    [Look(WATCHED, A, None, true, 4, None), Look(WATCHED, B, Some(A), false, 0, None),
     Look(WATCHED, B, Some(A), true, 1, None), LookUnclear(WATCHED), LookUnclear(MANUAL)]
  }

  function WatchedStates(): seq<State> {
    [State(NEW_ROLLOUT, None), Watched("a", NO_PAUSE, false, None), Watched("b", NO_PAUSE, false, None),
     Watched("b", NO_PAUSE, false, Some("b")), Watched("b", INCONCLUSIVE, false, Some("b")),
     Watched("b", INCONCLUSIVE, true, None)]
  }

  lemma {:induction false} DeployWatched()
    ensures Happens(Look(WATCHED, A, None, true, 4, None), State(NEW_ROLLOUT, None),
                    Watched("a", NO_PAUSE, false, None))
    ensures Happens(Look(WATCHED, B, Some(A), false, 0, None), Watched("a", NO_PAUSE, false, None),
                    Watched("b", NO_PAUSE, false, None))
  {
  }

  lemma {:induction false} AnalyseB()
    ensures Happens(Look(WATCHED, B, Some(A), true, 1, None), Watched("b", NO_PAUSE, false, None),
                    Watched("b", NO_PAUSE, false, Some("b")))
  {
  }

  lemma {:induction false} ReasonsOfInconclusive(st: BlueGreen.Status, seen: Seen)
    requires st == Watched("b", NO_PAUSE, false, Some("b")).status && seen == LookUnclear(WATCHED).seen
    ensures ReasonsAdded(st, Some("a"), seen) == [InconclusiveAnalysis] && ReasonsRemoved(st, Some("a"), seen) == []
    ensures PreAfter(st, seen) == Run("b", Inconclusive) && PostAfter(st, seen) == NoRun
    ensures !AddsAbort(st, seen) && !Promotes(st, Some("a"), seen) && !Within(seen)
  {
  }

  lemma {:induction false} OneReason()
    ensures Written(NO_PAUSE, NO_PAUSE, [InconclusiveAnalysis], [], false, false, false, 0) == INCONCLUSIVE
  {
    assert Kept([], []) == [] && Added([], [], 0) == [];
    assert Added([], [InconclusiveAnalysis], 0) == [Condition(InconclusiveAnalysis, 0)];
  }

  lemma {:induction false} AnalysisIsInconclusive()
    ensures Happens(LookUnclear(WATCHED), Watched("b", NO_PAUSE, false, Some("b")),
                    Watched("b", INCONCLUSIVE, false, Some("b")))
  {
    hide ReasonsAdded, ReasonsRemoved, PreAfter, PostAfter, AddsAbort, Promotes, Within, Written;
    ReasonsOfInconclusive(Watched("b", NO_PAUSE, false, Some("b")).status, LookUnclear(WATCHED).seen);
    OneReason();
  }

  lemma {:induction false} ReasonsOfPreview(st: BlueGreen.Status, seen: Seen)
    requires st == Watched("b", INCONCLUSIVE, false, Some("b")).status && seen == LookUnclear(MANUAL).seen
    ensures ReasonsAdded(st, Some("a"), seen) == [] && ReasonsRemoved(st, Some("a"), seen) == []
    ensures PreAfter(st, seen) == NoRun && PostAfter(st, seen) == NoRun
    ensures !AddsAbort(st, seen) && !Promotes(st, Some("a"), seen) && !Within(seen)
    ensures Halted(st, seen) && PauseCompleted(st, seen, false)
  {
    assert INCONCLUSIVE.conditions[0].reason == InconclusiveAnalysis;
  }

  lemma {:induction false} NoReason()
    ensures Written(INCONCLUSIVE, NO_PAUSE, [], [], false, false, false, 0) == INCONCLUSIVE
  {
    NothingRemoved(INCONCLUSIVE.conditions);
    assert Added(INCONCLUSIVE.conditions, [], 0) == [];
  }

  lemma {:induction false} AskForPreview()
    ensures Happens(LookUnclear(MANUAL), Watched("b", INCONCLUSIVE, false, Some("b")),
                    Watched("b", INCONCLUSIVE, true, None))
  {
    hide ReasonsAdded, ReasonsRemoved, PreAfter, PostAfter, AddsAbort, Promotes, Within, Written, Halted,
      PauseCompleted;
    ReasonsOfPreview(Watched("b", INCONCLUSIVE, false, Some("b")).status, LookUnclear(MANUAL).seen);
    NoReason();
  }

  lemma {:induction false} WatchedRun(events: seq<Event>, states: seq<State>)
    requires events == WatchedEvents() && states == WatchedStates()
    ensures IsRun(events, states)
  {
    hide Happens, Look, Watched, LookUnclear;
    forall i | 0 <= i < 5
      ensures Happens(events[i], states[i], states[i + 1])
    {
      if i < 2 {
        DeployWatched();
      } else if i < 3 {
        AnalyseB();
      } else if i < 4 {
        AnalysisIsInconclusive();
      } else {
        AskForPreview();
      }
    }
  }

  /** The trip-wire is set while the rollout is paused for an inconclusive analysis, although promotion is manual and
      nobody ever resumed it. */
  lemma {:induction false} WireSetDuringPause()
    ensures
      var events, states := WatchedEvents(), WatchedStates();
      && IsRun(events, states) && |events| == 5
      && !states[4].status.checkpoint && states[5].status.checkpoint
      && events[4].seen.spec.autoPromotionEnabled == Some(false) && !ResumedBefore(events, states, "b", 4)
      && PausedOtherwise(states[4].status, events[4].seen)
  {
    hide IsRun, AsksToPause;
    WatchedRun(WatchedEvents(), WatchedStates());
    assert INCONCLUSIVE.conditions[0].reason == InconclusiveAnalysis;
  }

  // ---------------------------------------------------------------------------------------------
  // The stable ReplicaSet is lost

  const S := Revision("s", 1, false)
  const H := Revision("h", 2, false)
  const S_AGAIN := Revision("s", 3, false)

  /** Promotion is automatic, and a post-promotion analysis is asked for. */
  const TESTED := Spec(None, 0, NotConfigured, Configured(1), None, false, None)

  function Tested(stableRS: string, current: string, active: string, abort: bool, abortedAt: Option<int>,
      post: Option<string>): State
  {
    State(BlueGreen.Status.Status(stableRS, current, active, false, PauseStatus([], false, abort, abortedAt), false,
                                  None, post), Some(active))
  }

  /** Deploy s; update to h, which takes the traffic; abort; delete the ReplicaSet of s; change the template back to
      that of s. */
  function TestedEvents(): seq<Event> {
    [Look(TESTED, S, None, true, 4, None), Look(TESTED, H, Some(S), false, 0, None),
     Look(TESTED, H, Some(S), true, 4, None), Look(TESTED, H, Some(S), true, 4, None), SetAbort(true),
     Look(TESTED, H, Some(S), true, 4, Some(Running)), Look(TESTED, H, None, true, 4, Some(Successful)),
     Look(TESTED, S_AGAIN, Some(H), false, 0, Some(Successful))]
  }

  function TestedStates(): seq<State> {
    [State(NEW_ROLLOUT, None), Tested("s", "s", "s", false, None, None), Tested("s", "h", "s", false, None, None),
     Tested("s", "h", "h", false, None, None), Tested("s", "h", "h", false, None, Some("h")),
     Tested("s", "h", "h", true, None, Some("h")), Tested("s", "h", "s", true, Some(0), Some("h")),
     Tested("h", "h", "s", false, None, Some("h")), Tested("s", "s", "s", false, None, None)]
  }

  lemma {:induction false} DeployS()
    ensures Happens(Look(TESTED, S, None, true, 4, None), State(NEW_ROLLOUT, None),
                    Tested("s", "s", "s", false, None, None))
    ensures Happens(Look(TESTED, H, Some(S), false, 0, None), Tested("s", "s", "s", false, None, None),
                    Tested("s", "h", "s", false, None, None))
  {
  }

  lemma {:induction false} SwitchToH()
    ensures Happens(Look(TESTED, H, Some(S), true, 4, None), Tested("s", "h", "s", false, None, None),
                    Tested("s", "h", "h", false, None, None))
  {
  }

  lemma {:induction false} TestH()
    ensures Happens(Look(TESTED, H, Some(S), true, 4, None), Tested("s", "h", "h", false, None, None),
                    Tested("s", "h", "h", false, None, Some("h")))
    ensures Happens(SetAbort(true), Tested("s", "h", "h", false, None, Some("h")),
                    Tested("s", "h", "h", true, None, Some("h")))
  {
  }

  lemma {:induction false} AbortH()
    ensures Happens(Look(TESTED, H, Some(S), true, 4, Some(Running)), Tested("s", "h", "h", true, None, Some("h")),
                    Tested("s", "h", "s", true, Some(0), Some("h")))
  {
  }

  lemma {:induction false} LoseS()
    ensures Happens(Look(TESTED, H, None, true, 4, Some(Successful)), Tested("s", "h", "s", true, Some(0), Some("h")),
                    Tested("h", "h", "s", false, None, Some("h")))
    ensures Happens(Look(TESTED, S_AGAIN, Some(H), false, 0, Some(Successful)),
                    Tested("h", "h", "s", false, None, Some("h")), Tested("s", "s", "s", false, None, None))
  {
  }

  lemma {:induction false} TestedRun(events: seq<Event>, states: seq<State>)
    requires events == TestedEvents() && states == TestedStates()
    ensures IsRun(events, states)
  {
    hide Happens, Look, Tested;
    forall i | 0 <= i < 8
      ensures Happens(events[i], states[i], states[i + 1])
    {
      if i < 2 {
        DeployS();
      } else if i < 3 {
        SwitchToH();
      } else if i < 5 {
        TestH();
      } else if i < 6 {
        AbortH();
      } else {
        LoseS();
      }
    }
  }

  /** Once the stable ReplicaSet was lost, a changed template becomes stable on the analysis of the one before it. */
  lemma {:induction false} LostStableBorrowsAnalysis()
    ensures
      var events, states := TestedEvents(), TestedStates();
      && IsRun(events, states) && LostBefore(events, states, 7)
      && states[7].status.stableRS == "h" && states[8].status.stableRS == "s"
      && MeetsChange(states[7].status, events[7].seen) && states[7].status.post == Some("h")
      && events[7].seen.spec.post == Configured(1) && !GoesBack(events[7].seen)
  {
    hide IsRun;
    TestedRun(TestedEvents(), TestedStates());
    assert LosesStable(TestedEvents()[6], TestedStates()[6]);
  }

  // ---------------------------------------------------------------------------------------------
  // A failed analysis gives the traffic back

  /** Deploy s; update to h, which takes the traffic, and whose analysis fails. */
  function FailingEvents(): seq<Event> {
    TestedEvents()[..4] + [Look(TESTED, H, Some(S), true, 4, Some(Failed)), Look(TESTED, H, Some(S), true, 4, None)]
  }

  function FailingStates(): seq<State> {
    TestedStates()[..5] + [Tested("s", "h", "h", true, Some(0), Some("h")), Tested("s", "h", "s", true, Some(0), None)]
  }

  lemma {:induction false} AnalysisFailed()
    ensures Happens(Look(TESTED, H, Some(S), true, 4, Some(Failed)), Tested("s", "h", "h", false, None, Some("h")),
                    Tested("s", "h", "h", true, Some(0), Some("h")))
  {
  }

  lemma {:induction false} GiveBack()
    ensures Happens(Look(TESTED, H, Some(S), true, 4, None), Tested("s", "h", "h", true, Some(0), Some("h")),
                    Tested("s", "h", "s", true, Some(0), None))
  {
  }

  lemma {:induction false} FailingRun(events: seq<Event>, states: seq<State>)
    requires events == FailingEvents() && states == FailingStates()
    ensures IsRun(events, states)
  {
    hide Happens, Look, Tested;
    TestedRun(TestedEvents(), TestedStates());
    forall i | 0 <= i < 6
      ensures Happens(events[i], states[i], states[i + 1])
    {
      if i < 4 {
        assert Happens(TestedEvents()[i], TestedStates()[i], TestedStates()[i + 1]);
      } else if i < 5 {
        AnalysisFailed();
      } else {
        GiveBack();
      }
    }
  }

  /** The update has the traffic when its analysis fails, which aborts it, and the next pass gives the traffic back. */
  lemma {:induction false} FailedAnalysisGivesBack()
    ensures
      var events, states := FailingEvents(), FailingStates();
      && IsRun(events, states) && states[4].active == Some("h") && !states[4].status.pauses.abort
      && events[4].seen.postPhase == Some(Failed) && FailedAt(events, states, 4)
      && states[5].status.pauses.abort && states[6].active == Some("s")
  {
    hide IsRun;
    FailingRun(FailingEvents(), FailingStates());
  }
}
