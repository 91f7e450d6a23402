/** Gating of blue-green promotion over whole runs. */
module BlueGreenProperties {
  import opened Prelude
  import opened AnalysisTypes
  import opened BlueGreen
  import opened BlueGreenOutcomes
  import opened PauseContexts
  import opened PauseOutcomes

  // ---------------------------------------------------------------------------------------------
  // Runs

  /** The stored status and the selector of the active service. */
  datatype State = State(status: BlueGreen.Status, active: Option<string>)

  /** What happens between two states: a pass, one that only follows the replica count, or a user who asks for a full
      promotion, for an abort or a retry, or resumes a paused rollout. Only the controller writes the selector of the
      active service. */
  datatype Event = Pass(seen: Seen, reach: Reach, stored: bool)
    | Scaled(deadlineAbort: bool, savedAt: int, stored: bool) | PromoteFull | SetAbort(abort: bool) | Resume

  predicate Happens(e: Event, s: State, s': State) {
    var st := s.status;
    match e
    case Pass(seen, reach, stored) =>
      && Fits(st, seen)
      && s'.active == (if reach == BeforeSwitch then s.active else ActiveAfter(st, s.active, seen))
      && s'.status == (if Saves(e) then Sync(st, s.active, s'.active, seen) else st)
    case Scaled(deadlineAbort, savedAt, stored) =>
      s' == s.(status := if stored then SyncReplicasOnly(st, deadlineAbort, savedAt) else st)
    case PromoteFull => s' == s.(status := st.(promoteFull := true))
    case SetAbort(abort) => s' == s.(status := st.(pauses := st.pauses.(abort := abort)))
    case Resume => s' == s.(status := st.(pauses := st.pauses.(conditions := [])))
  }

  /** A pass that got to its end, with its status stored. */
  predicate Saves(e: Event) {
    e.Pass? && e.reach == Complete && e.stored
  }

  const NEW_ROLLOUT := BlueGreen.Status.Status("", "", "", false, NO_PAUSE, false, None, None)

  /** A run of a new rollout, whatever its active service selects at first. */
  ghost predicate IsRun(events: seq<Event>, states: seq<State>) {
    && |states| == |events| + 1 && states[0].status == NEW_ROLLOUT
    && forall i :: 0 <= i < |events| ==> Happens(events[i], states[i], states[i + 1])
  }

  // ---------------------------------------------------------------------------------------------
  // The invariant

  /** The pass found no stable ReplicaSet although a stable hash was recorded: somebody deleted it. */
  predicate LosesStable(e: Event, s: State) {
    Saves(e) && e.seen.stable == None && s.status.stableRS != ""
  }

  ghost predicate LostBefore(events: seq<Event>, states: seq<State>, i: nat)
    requires i <= |events| <= |states|
  {
    exists j :: 0 <= j < i && LosesStable(events[j], states[j])
  }

  /** Recorded runs belong to the current hash, and nothing is paused before there is one. Unless the stable ReplicaSet
      was ever lost, a rollout that has a post-promotion run, or has recorded its hash as active, has it active still,
      or an abort gave traffic back to the stable hash. */
  ghost predicate Inv(s: State, lost: bool) {
    var st, selected := s.status, Label(s.active);
    && (st.pre.Some? ==> st.pre.value == st.currentPodHash != "")
    && (st.post.Some? ==> st.post.value == st.currentPodHash != "")
    && (st.stableRS == "" ==> st.post == None)
    && (st.currentPodHash == "" ==> st.activeSelector == "" && st.pauses.conditions == [] && !st.pauses.controllerPause)
    && (!lost && st.currentPodHash != "" && (st.activeSelector == st.currentPodHash || st.post.Some?) ==>
          selected == st.currentPodHash || selected == st.stableRS)
  }

  lemma {:induction false} SwitchTargets(st: BlueGreen.Status, active: Option<string>, seen: Seen)
    ensures
      var after := ActiveAfter(st, active, seen);
      after == active || (!MeetsChange(st, seen) && (after == Some(seen.desired.hash) || after == Some(st.stableRS)))
  {
    hide ActiveAfter, MeetsChange, GoesStraight, WaitIsOver, HasSucceeded, OnHold;
    SwitchOutcome(st, active, seen);
  }

  lemma {:induction false} SwitchKeepsInv(s: State, seen: Seen, lost: bool)
    requires Inv(s, lost) && Fits(s.status, seen)
    ensures Inv(State(s.status, ActiveAfter(s.status, s.active, seen)), lost)
  {
    hide ActiveAfter;
    SwitchTargets(s.status, s.active, seen);
  }

  /** What a stored status says about hashes, and about runs. */
  lemma {:induction false} SyncShape(st: BlueGreen.Status, before: Option<string>, active: Option<string>, seen: Seen)
    ensures
      var st' := Sync(st, before, active, seen);
      && st'.currentPodHash == seen.desired.hash && st'.activeSelector == Label(active)
      && st'.stableRS == (if BecomesStable(st, active, seen) then seen.desired.hash else st.stableRS)
      && (st'.pre.Some? ==> !MeetsChange(st, seen) && (st'.pre.value == seen.desired.hash || st'.pre == st.pre))
      && (st'.post.Some? ==>
            && !MeetsChange(st, seen)
            && (|| st'.post == st.post
                || (&& st'.post.value == seen.desired.hash && st.activeSelector == seen.desired.hash
                    && st.stableRS != "")))
  {
    hide BecomesStable, MeetsChange, Sync;
    StableOutcome(st, before, active, seen);
    RunsOutcome(st, before, active, seen);
  }

  lemma {:induction false} SyncKeepsInv(s: State, before: Option<string>, seen: Seen, lost: bool)
    requires Inv(s, lost) && Fits(s.status, seen) && (seen.stable == None && s.status.stableRS != "" ==> lost)
    ensures Inv(State(Sync(s.status, before, s.active, seen), s.active), lost)
  {
    hide Sync, GoesBack, Aborting, PostSucceeded;
    var st := s.status;
    SyncShape(st, before, s.active, seen);
  }

  lemma {:induction false} InvHolds(events: seq<Event>, states: seq<State>, i: nat)
    requires IsRun(events, states) && i < |states|
    ensures Inv(states[i], LostBefore(events, states, i))
    decreases i
  {
    hide Inv, ActiveAfter, Sync, Fits, SyncReplicasOnly;
    if i == 0 {
      InitialInv(states[0]);
      return;
    }
    InvHolds(events, states, i - 1);
    var e, s, s' := events[i - 1], states[i - 1], states[i];
    var lost := LostBefore(events, states, i);
    assert Happens(e, s, s');
    Weaken(s, LostBefore(events, states, i - 1), lost);
    match e
    case Pass(seen, reach, stored) =>
      if reach != BeforeSwitch {
        SwitchKeepsInv(s, seen, lost);
        if Saves(e) {
          assert LosesStable(e, s) ==> lost;
          SyncKeepsInv(State(s.status, s'.active), s.active, seen, lost);
        }
      }
    case Scaled(deadlineAbort, savedAt, _) =>
      ScaledOutcome(s.status, deadlineAbort, savedAt);
      FlagsKeepInv(s, s', lost);
    case _ => FlagsKeepInv(s, s', lost);
  }

  lemma {:induction false} InitialInv(s: State)
    requires s.status == NEW_ROLLOUT
    ensures Inv(s, false)
  {
  }

  lemma {:induction false} Weaken(s: State, lost: bool, lost': bool)
    requires Inv(s, lost) && (lost ==> lost')
    ensures Inv(s, lost')
  {
  }

  lemma {:induction false} FlagsKeepInv(s: State, s': State, lost: bool)
    requires Inv(s, lost) && s'.active == s.active
    requires s'.status == s.status.(pauses := s'.status.pauses, promoteFull := s'.status.promoteFull)
    requires s'.status.pauses.controllerPause == s.status.pauses.controllerPause
    requires s'.status.pauses.conditions == [] || s'.status.pauses.conditions == s.status.pauses.conditions
    ensures Inv(s', lost)
  {
  }

  // ---------------------------------------------------------------------------------------------
  // Where a pause comes from

  /** Pass `j` added the pause `c` for the ReplicaSet with this hash, which was the recorded one from then on. */
  ghost predicate PausedBy(events: seq<Event>, states: seq<State>, hash: string, j: nat, i: nat, c: Condition)
    requires i <= |events| < |states|
  {
    && j < i && Saves(events[j]) && events[j].seen.desired.hash == hash
    && c.startTime == events[j].seen.savedAt
    && AsksToPause(states[j].status, states[j].active, events[j].seen, c.reason)
    && forall k :: j < k <= i ==> states[k].status.currentPodHash == hash
  }

  ghost predicate Paused(events: seq<Event>, states: seq<State>, hash: string, i: nat, c: Condition)
    requires i <= |events| < |states|
  {
    exists j: nat :: PausedBy(events, states, hash, j, i, c)
  }

  /** Somebody resumed the rollout after such a pause. */
  ghost predicate ResumedBefore(events: seq<Event>, states: seq<State>, hash: string, i: nat)
    requires i <= |events| < |states|
  {
    exists j: nat, c, r :: PausedBy(events, states, hash, j, i, c) && j < r < i && events[r].Resume?
  }

  /** Every pause was added by a pass for the current hash; a paused rollout says it was paused by the controller, and
      one that says so but has no pause was resumed. */
  ghost predicate PauseInv(events: seq<Event>, states: seq<State>, i: nat)
    requires i <= |events| < |states|
  {
    var st := states[i].status;
    && (forall c :: c in st.pauses.conditions ==> Paused(events, states, st.currentPodHash, i, c))
    && (st.pauses.conditions != [] ==> st.pauses.controllerPause)
    && (st.pauses.controllerPause && st.pauses.conditions == [] ==>
          ResumedBefore(events, states, st.currentPodHash, i))
  }

  lemma {:induction false} PausesShape(st: BlueGreen.Status, before: Option<string>, active: Option<string>, seen: Seen)
    requires st.pauses.conditions != [] ==> st.pauses.controllerPause
    ensures
      var pauses := Sync(st, before, active, seen).pauses;
      && (pauses.controllerPause <==> pauses.conditions != [])
      && forall c :: c in pauses.conditions ==>
           && !MeetsChange(st, seen)
           && (|| c in st.pauses.conditions
               || (c.startTime == seen.savedAt && AsksToPause(st, before, seen, c.reason)))
  {
    hide Sync, MeetsChange, AsksToPause, EndsPause, BecomesStable, GoesBackWithinWindow;
    PausesOutcome(st, before, active, seen);
    var conditions := Sync(st, before, active, seen).pauses.conditions;
    if conditions != [] {
      assert conditions[0] in conditions;
    }
  }

  lemma {:induction false} PausedLater(events: seq<Event>, states: seq<State>, hash: string, j: nat, i: nat,
      c: Condition)
    requires i < |events| < |states| && PausedBy(events, states, hash, j, i, c)
    requires states[i + 1].status.currentPodHash == hash
    ensures PausedBy(events, states, hash, j, i + 1, c)
  {
    hide AsksToPause;
  }

  lemma {:induction false} ResumedLater(events: seq<Event>, states: seq<State>, hash: string, i: nat)
    requires i < |events| < |states| && ResumedBefore(events, states, hash, i)
    requires states[i + 1].status.currentPodHash == hash
    ensures ResumedBefore(events, states, hash, i + 1)
  {
    hide PausedBy;
    var j: nat, c, r :| PausedBy(events, states, hash, j, i, c) && j < r < i && events[r].Resume?;
    PausedLater(events, states, hash, j, i, c);
  }

  lemma {:induction false} SavedPauses(events: seq<Event>, states: seq<State>, i: nat)
    requires IsRun(events, states) && i < |events| && Saves(events[i]) && PauseInv(events, states, i)
    ensures PauseInv(events, states, i + 1)
  {
    hide PausedBy, ResumedBefore, AsksToPause, ActiveAfter, Sync, LostBefore;
    InvHolds(events, states, i);
    var s, s', seen := states[i], states[i + 1], events[i].seen;
    assert Happens(events[i], s, s');
    hide BecomesStable;
    SyncShape(s.status, s.active, s'.active, seen);
    PausesShape(s.status, s.active, s'.active, seen);
    forall c | c in s'.status.pauses.conditions
      ensures Paused(events, states, seen.desired.hash, i + 1, c)
    {
      if c in s.status.pauses.conditions {
        var j: nat :| PausedBy(events, states, s.status.currentPodHash, j, i, c);
        PausedLater(events, states, seen.desired.hash, j, i, c);
      } else {
        JustPaused(events, states, i, c);
      }
    }
  }

  lemma {:induction false} JustPaused(events: seq<Event>, states: seq<State>, i: nat, c: Condition)
    requires i < |events| < |states| && Saves(events[i]) && c.startTime == events[i].seen.savedAt
    requires AsksToPause(states[i].status, states[i].active, events[i].seen, c.reason)
    requires states[i + 1].status.currentPodHash == events[i].seen.desired.hash
    ensures PausedBy(events, states, events[i].seen.desired.hash, i, i + 1, c)
  {
    hide AsksToPause;
  }

  lemma {:induction false} KeptPauses(events: seq<Event>, states: seq<State>, i: nat)
    requires i < |events| < |states| && PauseInv(events, states, i)
    requires states[i + 1].status.currentPodHash == states[i].status.currentPodHash
    requires states[i + 1].status.pauses.controllerPause == states[i].status.pauses.controllerPause
    requires states[i + 1].status.pauses.conditions == states[i].status.pauses.conditions
    ensures PauseInv(events, states, i + 1)
  {
    hide PausedBy, ResumedBefore;
    var st := states[i].status;
    forall c | c in st.pauses.conditions
      ensures Paused(events, states, st.currentPodHash, i + 1, c)
    {
      var j: nat :| PausedBy(events, states, st.currentPodHash, j, i, c);
      PausedLater(events, states, st.currentPodHash, j, i, c);
    }
    if st.pauses.controllerPause && st.pauses.conditions == [] {
      ResumedLater(events, states, st.currentPodHash, i);
    }
  }

  lemma {:induction false} ResumedPauses(events: seq<Event>, states: seq<State>, i: nat)
    requires i < |events| < |states| && PauseInv(events, states, i) && events[i].Resume?
    requires Happens(events[i], states[i], states[i + 1])
    ensures PauseInv(events, states, i + 1)
  {
    hide PausedBy;
    var st := states[i].status;
    if st.pauses.conditions == [] {
      KeptPauses(events, states, i);
    } else {
      var c := st.pauses.conditions[0];
      assert c in st.pauses.conditions;
      var j: nat :| PausedBy(events, states, st.currentPodHash, j, i, c);
      PausedLater(events, states, st.currentPodHash, j, i, c);
      PausedEarlier(events, states, st.currentPodHash, j, i, c);
    }
  }

  lemma {:induction false} PausedEarlier(events: seq<Event>, states: seq<State>, hash: string, j: nat, i: nat,
      c: Condition)
    requires i <= |events| < |states| && PausedBy(events, states, hash, j, i, c)
    ensures j < i && Saves(events[j])
  {
  }

  lemma {:induction false} PauseInvHolds(events: seq<Event>, states: seq<State>, i: nat)
    requires IsRun(events, states) && i < |states|
    ensures PauseInv(events, states, i)
    decreases i
  {
    hide PauseInv, ActiveAfter, Sync, Fits, SyncReplicasOnly;
    if i == 0 {
      NothingPaused(events, states);
      return;
    }
    PauseInvHolds(events, states, i - 1);
    var e := events[i - 1];
    assert Happens(e, states[i - 1], states[i]);
    if Saves(e) {
      SavedPauses(events, states, i - 1);
    } else if e.Resume? {
      ResumedPauses(events, states, i - 1);
    } else {
      if e.Scaled? {
        ScaledOutcome(states[i - 1].status, e.deadlineAbort, e.savedAt);
      }
      KeptPauses(events, states, i - 1);
    }
  }

  lemma {:induction false} NothingPaused(events: seq<Event>, states: seq<State>)
    requires IsRun(events, states)
    ensures PauseInv(events, states, 0)
  {
  }

  // ---------------------------------------------------------------------------------------------
  // Main results

  /** No pause is asked for, or the blue-green pause that was added for this hash has lasted its time, or, when
      promotion is manual, somebody resumed the rollout after it was paused for this hash. */
  ghost predicate PauseLasted(events: seq<Event>, states: seq<State>, hash: string, i: nat)
    requires i < |events| < |states| && events[i].Pass?
  {
    var seen := events[i].seen;
    if IsManual(seen.spec) then ResumedBefore(events, states, hash, i)
    else
      || seen.spec.autoPromotionSeconds == 0
      || exists j: nat, c ::
           && PausedBy(events, states, hash, j, i, c) && c.reason == BlueGreenPause
           && seen.now > c.startTime + seen.spec.autoPromotionSeconds
  }

  /** Promotion is manual, and the rollout is paused, but only for an inconclusive analysis. */
  predicate PausedOtherwise(st: BlueGreen.Status, seen: Seen) {
    && IsManual(seen.spec) && NotPaused(st.pauses.conditions, BlueGreenPause)
    && !NotPaused(st.pauses.conditions, InconclusiveAnalysis)
  }

  lemma {:induction false} OverHasLasted(events: seq<Event>, states: seq<State>, i: nat)
    requires IsRun(events, states) && i < |events| && events[i].Pass? && !states[i].status.checkpoint
    requires WaitIsOver(states[i].status, events[i].seen)
    ensures PauseLasted(events, states, states[i].status.currentPodHash, i)
      || PausedOtherwise(states[i].status, events[i].seen)
  {
    hide PausedBy, ResumedBefore, Happens, LostBefore;
    PauseInvHolds(events, states, i);
    var st, seen := states[i].status, events[i].seen;
    var conditions := st.pauses.conditions;
    if IsManual(seen.spec) {
      if conditions != [] {
        assert conditions[0] in conditions;
        var j: nat :| PausedBy(events, states, st.currentPodHash, j, i, conditions[0]);
        OnlyTwoReasons(events, states, st.currentPodHash, j, i, conditions[0]);
      }
    } else if seen.spec.autoPromotionSeconds > 0 {
      var k :| 0 <= k < |conditions| && IsFirst(conditions, BlueGreenPause, k)
        && conditions[k].startTime + seen.spec.autoPromotionSeconds < seen.now;
      assert conditions[k] in conditions;
      var j: nat :| PausedBy(events, states, st.currentPodHash, j, i, conditions[k]);
    }
  }

  lemma {:induction false} OnlyTwoReasons(events: seq<Event>, states: seq<State>, hash: string, j: nat, i: nat,
      c: Condition)
    requires i <= |events| < |states| && PausedBy(events, states, hash, j, i, c)
    ensures c.reason == BlueGreenPause || c.reason == InconclusiveAnalysis
  {
    hide BeginsPause, AnalysisIsUnclear;
  }

  // ---------------------------------------------------------------------------------------------
  // Where the trip-wire comes from

  /** Pass `j` set the trip-wire: as many preview pods were available as asked for, any configured pre-promotion
      analysis, made for the hash recorded then, was successful, and the pause for that hash had lasted, or the rollout
      was paused for an inconclusive analysis alone. */
  ghost predicate SetsWire(events: seq<Event>, states: seq<State>, j: nat)
    requires j < |events| < |states|
  {
    && Saves(events[j])
    && var st, seen := states[j].status, events[j].seen;
    && !st.checkpoint && seen.spec.previewCount == Some(seen.available)
    && (seen.spec.pre == NotConfigured || (st.pre == Some(st.currentPodHash) && seen.prePhase == Some(Successful)))
    && (PauseLasted(events, states, st.currentPodHash, j) || PausedOtherwise(st, seen))
  }

  /** Since pass `j` the trip-wire was set, and either the hash recorded by that pass, which met no change, is recorded
      still, or the trip-wire survived a change. */
  ghost predicate WireKept(events: seq<Event>, states: seq<State>, j: nat, i: nat)
    requires j < i <= |events| < |states| && events[j].Pass?
  {
    && (forall k :: j < k <= i ==> states[k].status.checkpoint)
    && (|| SurvivesChange(events, states, j, i)
        || (&& !MeetsChange(states[j].status, events[j].seen)
            && forall k :: j < k <= i ==> states[k].status.currentPodHash == events[j].seen.desired.hash))
  }

  /** A stored pass from `j` on, before event `i`, met a change of the template. */
  ghost predicate SurvivesChange(events: seq<Event>, states: seq<State>, j: nat, i: nat)
    requires j < i <= |events| < |states|
  {
    exists k :: j <= k < i && Saves(events[k]) && MeetsChange(states[k].status, events[k].seen)
  }

  /** The trip-wire was set by a pass, and kept. */
  ghost predicate WireSet(events: seq<Event>, states: seq<State>, i: nat)
    requires i <= |events| < |states|
  {
    exists j: nat :: j < i && SetsWire(events, states, j) && WireKept(events, states, j, i)
  }

  lemma {:induction false} JustSetWire(events: seq<Event>, states: seq<State>, i: nat)
    requires IsRun(events, states) && i < |events| && Saves(events[i])
    requires !states[i].status.checkpoint && states[i + 1].status.checkpoint
    ensures WireSet(events, states, i + 1)
  {
    hide PauseLasted, LostBefore, WaitIsOver, GoesBack, Sync, ActiveAfter, BecomesStable;
    InvHolds(events, states, i);
    var s, s', seen := states[i], states[i + 1], events[i].seen;
    assert Happens(events[i], s, s');
    CheckpointOutcome(s.status, s.active, s'.active, seen);
    SyncShape(s.status, s.active, s'.active, seen);
    OverHasLasted(events, states, i);
    assert SetsWire(events, states, i);
    if MeetsChange(s.status, seen) {
      assert SurvivesChange(events, states, i, i + 1);
    }
    assert WireKept(events, states, i, i + 1);
  }

  lemma {:induction false} WireStays(events: seq<Event>, states: seq<State>, i: nat)
    requires i < |events| < |states| && WireSet(events, states, i) && states[i + 1].status.checkpoint
    requires states[i + 1].status.currentPodHash == states[i].status.currentPodHash
      || (Saves(events[i]) && MeetsChange(states[i].status, events[i].seen))
    ensures WireSet(events, states, i + 1)
  {
    hide PauseLasted, MeetsChange;
    var j: nat :| j < i && SetsWire(events, states, j) && WireKept(events, states, j, i);
    if k :| j <= k < i && Saves(events[k]) && MeetsChange(states[k].status, events[k].seen) {
      assert SurvivesChange(events, states, j, i + 1);
    } else if Saves(events[i]) && MeetsChange(states[i].status, events[i].seen) {
      assert SurvivesChange(events, states, j, i + 1);
    }
    assert WireKept(events, states, j, i + 1);
  }

  /** Over every run, a set trip-wire was set by a pass that met its condition, for the hash that is recorded still, or
      it survived a change of the template since. */
  lemma {:induction false} WireHasOrigin(events: seq<Event>, states: seq<State>, i: nat)
    requires IsRun(events, states) && i < |states| && states[i].status.checkpoint
    ensures WireSet(events, states, i)
    decreases i
  {
    hide WireSet, Fits, ActiveAfter, SyncReplicasOnly, Promotes, CheckpointAfter, PausesAfter, PreAfter, PostAfter;
    if i > 0 {
      var e, s := events[i - 1], states[i - 1];
      assert Happens(e, s, states[i]);
      if e.Scaled? {
        ScaledOutcome(s.status, e.deadlineAbort, e.savedAt);
      }
      if s.status.checkpoint {
        WireHasOrigin(events, states, i - 1);
        WireHasHash(events, states, i - 1);
        WireStays(events, states, i - 1);
      } else {
        JustSetWire(events, states, i - 1);
      }
    }
  }

  lemma {:induction false} WireHasHash(events: seq<Event>, states: seq<State>, i: nat)
    requires IsRun(events, states) && i < |states| && states[i].status.checkpoint
    ensures states[i].status.currentPodHash != ""
    decreases i
  {
    hide Fits, ActiveAfter, SyncReplicasOnly, Promotes, CheckpointAfter, PausesAfter, PreAfter, PostAfter;
    if i > 0 {
      var e, s := events[i - 1], states[i - 1];
      assert Happens(e, s, states[i]);
      if Saves(e) {
        FitsHash(s.status, e.seen);
      } else {
        if e.Scaled? {
          ScaledOutcome(s.status, e.deadlineAbort, e.savedAt);
        }
        WireHasHash(events, states, i - 1);
      }
    }
  }

  lemma {:induction false} FitsHash(st: BlueGreen.Status, seen: Seen)
    requires Fits(st, seen)
    ensures seen.desired.hash != ""
  {
  }

  // ---------------------------------------------------------------------------------------------
  // The switch, and the stable hash

  /** The pause before the switch of event `i` is over: the trip-wire was set by an earlier pass, or the pause for this
      very hash has lasted. */
  ghost predicate PauseIsOver(events: seq<Event>, states: seq<State>, i: nat)
    requires i < |events| < |states| && events[i].Pass?
  {
    || (states[i].status.checkpoint && WireSet(events, states, i))
    || PauseLasted(events, states, events[i].seen.desired.hash, i)
  }

  lemma {:induction false} WaitedIsOver(events: seq<Event>, states: seq<State>, i: nat)
    requires IsRun(events, states) && i < |events| && events[i].Pass?
    requires !MeetsChange(states[i].status, events[i].seen) && !OnHold(states[i].status, events[i].seen)
    requires WaitIsOver(states[i].status, events[i].seen)
    ensures PauseIsOver(events, states, i)
  {
    hide PausedBy, ResumedBefore, Happens, LostBefore, WireSet;
    if states[i].status.checkpoint {
      WireHasOrigin(events, states, i);
    } else {
      InvHolds(events, states, i);
      OverHasLasted(events, states, i);
    }
  }

  /** Live traffic moves only in a pass that meets the template it recorded, is not halted, and finds the desired
      ReplicaSet ready and saturated. It moves back to the stable hash on an abort; otherwise to the desired one, and
      then, apart from a service without selector, a full promotion and a fast rollback, only when the pause is over
      and any configured pre-promotion analysis, made for this very hash, was successful. */
  lemma {:induction false} ActiveMovesSafely(events: seq<Event>, states: seq<State>, i: nat)
    requires IsRun(events, states) && i < |events| && states[i + 1].active != states[i].active
    ensures events[i].Pass?
    ensures
      var s, seen := states[i], events[i].seen;
      && !MeetsChange(s.status, seen) && !OnHold(s.status, seen) && seen.readyForPause && seen.saturated
      && (if s.status.pauses.abort then states[i + 1].active == Some(s.status.stableRS)
          else
            && states[i + 1].active == Some(seen.desired.hash)
            && (|| s.active == None || s.status.promoteFull || GoesBack(seen)
                || (&& PauseIsOver(events, states, i)
                    && (|| seen.spec.pre == NotConfigured
                        || (s.status.pre == Some(seen.desired.hash) && seen.prePhase == Some(Successful))))))
  {
    hide GoesBack, OnHold, WaitIsOver, PauseIsOver, LostBefore, ActiveAfter, Sync;
    InvHolds(events, states, i);
    assert Happens(events[i], states[i], states[i + 1]);
    var st, seen := states[i].status, events[i].seen;
    SwitchOutcome(st, states[i].active, seen);
    if !MeetsChange(st, seen) && !OnHold(st, seen) && WaitIsOver(st, seen) {
      WaitedIsOver(events, states, i);
    }
  }

  /** The stable hash moves only in a complete stored pass, to the desired hash. Unless no stable ReplicaSet exists, or
      the active service has no selector, that service selects that hash and its targets are verified, and, apart from
      a full promotion and a fast rollback, the rollout is not aborted and any configured post-promotion analysis was
      successful. It was made for this very hash exactly when this pass met an unchanged template, and a pass that met a
      change can only do this if the stable ReplicaSet was lost before. */
  lemma {:induction false} StableMovesSafely(events: seq<Event>, states: seq<State>, i: nat)
    requires IsRun(events, states) && i < |events| && states[i + 1].status.stableRS != states[i].status.stableRS
    ensures Saves(events[i])
    ensures
      var s, s', seen := states[i], states[i + 1], events[i].seen;
      && s'.status.stableRS == s'.status.currentPodHash == seen.desired.hash
      && (|| seen.stable == None || Label(s'.active) == ""
          || (&& Label(s'.active) == seen.desired.hash
              && (MeetsChange(s.status, seen) || seen.targetsVerified)
              && (|| s.status.promoteFull || GoesBack(seen)
                  || (&& !Aborting(s.status, seen)
                      && (|| seen.spec.post == NotConfigured
                          || (&& s.status.post.Some? && seen.postPhase == Some(Successful)
                              && (s.status.post == Some(seen.desired.hash) <==> !MeetsChange(s.status, seen))
                              && (MeetsChange(s.status, seen) ==> LostBefore(events, states, i))))))))
  {
    hide GoesBack, Aborting, ActiveAfter, Sync, LostBefore, SyncReplicasOnly, NoAnalysis, CountsPost;
    InvHolds(events, states, i);
    var s, s' := states[i], states[i + 1];
    assert Happens(events[i], s, s');
    if events[i].Scaled? {
      ScaledOutcome(s.status, events[i].deadlineAbort, events[i].savedAt);
    }
    var seen := events[i].seen;
    SwitchTargets(s.status, s.active, seen);
    SyncShape(s.status, s.active, s'.active, seen);
  }

  /** The trip-wire of the preview is meant to be reset by a change of the template. A pass that meets a change leaves
      it set exactly when the preview count is used and either it was set before, or the old preview had its analysis
      and pause behind it and the count of the new ReplicaSet happens to match. */
  lemma {:induction false} CheckpointSurvivesChange(st: BlueGreen.Status, before: Option<string>,
      active: Option<string>, seen: Seen)
    requires MeetsChange(st, seen) && !BecomesStable(st, active, seen)
    ensures Sync(st, before, active, seen).checkpoint <==>
      && seen.spec.previewCount.Some?
      && (|| st.checkpoint
          || (&& HasSucceeded(seen.spec.pre, st.pre, seen.prePhase) && WaitIsOver(st, seen)
              && seen.available == seen.spec.previewCount.value))
  {
    hide BecomesStable, Sync, MeetsChange, WaitIsOver, HasSucceeded, AnalysisIsUnclear;
    FoundTells(st, seen);
    VerdictsTell(st, seen);
    CheckpointOutcome(st, before, active, seen);
  }

  /** A pass during a pause for an inconclusive analysis, with manual promotion, sets the trip-wire exactly when no
      blue-green pause stands, no run is inconclusive now, the preview count matches, and any configured pre-promotion
      analysis was successful: nobody needs to resume the rollout. */
  lemma {:induction false} InconclusivePauseSetsWire(events: seq<Event>, states: seq<State>, i: nat,
      active: Option<string>, seen: Seen)
    requires IsRun(events, states) && i < |states|
    requires !NotPaused(states[i].status.pauses.conditions, InconclusiveAnalysis)
    requires !states[i].status.checkpoint && IsManual(seen.spec) && !BecomesStable(states[i].status, active, seen)
    ensures
      var st := states[i].status;
      Sync(st, states[i].active, active, seen).checkpoint <==>
        && NotPaused(st.pauses.conditions, BlueGreenPause) && !AnalysisIsUnclear(st, seen)
        && seen.spec.previewCount == Some(seen.available) && PreSucceeded(st, seen)
  {
    hide BecomesStable, Sync, PreSucceeded, AnalysisIsUnclear, Paused, ResumedBefore;
    PauseInvHolds(events, states, i);
    CheckpointOutcome(states[i].status, states[i].active, active, seen);
  }
}
