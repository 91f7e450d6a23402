/** Duration metrics over whole runs in which status patches may fail. */
module RolloutDurationProperties {
  import opened Prelude
  import opened RolloutDurations

  // ---------------------------------------------------------------------------------------------
  // Runs

  datatype State = State(stored: Option<Duration>, emitted: seq<Duration>)

  predicate Happens(p: Pass, s: State, s': State) {
    var effective, pending := Effective(s.stored, p), Pending(s.stored, p);
    && s'.stored == (if effective then Calculate(s.stored, p) else s.stored)
    && s'.emitted == (if effective && pending.Some? then s.emitted + [pending.value] else s.emitted)
  }

  /** A run from a rollout without a record, under a clock that never goes back. */
  ghost predicate IsRun(passes: seq<Pass>, states: seq<State>) {
    && |states| == |passes| + 1 && states[0] == State(None, [])
    && (forall i :: 0 <= i < |passes| ==> Happens(passes[i], states[i], states[i + 1]))
    && (forall i, j :: 0 <= i < j < |passes| ==> passes[i].now <= passes[j].now)
  }

  /** The pass begins an attempt, and that begin is stored. */
  predicate Begins(s: State, p: Pass) {
    Effective(s.stored, p) && Starts(s.stored, p)
  }

  /** The start times of all attempts begun by the first `n` passes. */
  ghost function Begun(passes: seq<Pass>, states: seq<State>, n: nat): seq<int>
    requires n <= |passes| <= |states|
  {
    if n == 0 then []
    else Begun(passes, states, n - 1) + (if Begins(states[n - 1], passes[n - 1]) then [passes[n - 1].now] else [])
  }

  function StartsOf(ds: seq<Duration>): (starts: seq<int>)
    ensures |starts| == |ds| && forall i :: 0 <= i < |ds| ==> starts[i] == ds[i].startedAt
  {
    seq(|ds|, i requires 0 <= i < |ds| => ds[i].startedAt)
  }

  function OpenStart(stored: Option<Duration>): seq<int> {
    if InProgress(stored) then [stored.value.startedAt] else []
  }

  // ---------------------------------------------------------------------------------------------
  // One metric for each attempt

  /** What one pass does to the record, as far as starts are concerned. */
  lemma {:induction false} PassShape(stored: Option<Duration>, p: Pass)
    ensures
      var record := Calculate(stored, p);
      && (Starts(stored, p) ==> InProgress(record) && record.value.startedAt == p.now)
      && (!Starts(stored, p) ==> (record.Some? <==> stored.Some?))
      && (!Starts(stored, p) && stored.Some? ==> record.value.startedAt == stored.value.startedAt)
      && (!Starts(stored, p) ==> (InProgress(record) <==> InProgress(stored) && Pending(stored, p) == None))
      && (Pending(stored, p).Some? ==>
            InProgress(stored) && Pending(stored, p).value.startedAt == stored.value.startedAt)
      && (Starts(stored, p) && InProgress(stored) ==> Pending(stored, p).Some?)
  {
  }

  /** In every run the emitted metrics are those of the attempts begun, in order, one for each attempt that has ended
      and none for one in progress, whatever patches were lost. */
  lemma {:induction false} OneMetricPerAttempt(passes: seq<Pass>, states: seq<State>, n: nat)
    requires IsRun(passes, states) && n <= |passes|
    ensures StartsOf(states[n].emitted) + OpenStart(states[n].stored) == Begun(passes, states, n)
    ensures states[n].stored.Some? ==>
      Begun(passes, states, n) != [] && Last(Begun(passes, states, n)) == states[n].stored.value.startedAt
    ensures states[n].stored == None ==> Begun(passes, states, n) == []
  {
    hide Calculate, Pending, Starts, Effective;
    if n > 0 {
      OneMetricPerAttempt(passes, states, n - 1);
      var s, p := states[n - 1], passes[n - 1];
      assert Happens(p, s, states[n]);
      PassShape(s.stored, p);
      if Pending(s.stored, p).Some? {
        StartsAppend(s.emitted, Pending(s.stored, p).value);
      }
    }
  }

  function Last(s: seq<int>): int
    requires s != []
  {
    s[|s| - 1]
  }

  lemma {:induction false} StartsAppend(ds: seq<Duration>, d: Duration)
    ensures StartsOf(ds + [d]) == StartsOf(ds) + [d.startedAt]
  {
  }

  // ---------------------------------------------------------------------------------------------
  // Attempts told apart by their start

  /** The pass begins an attempt in the very second in which the one before it began. */
  predicate SameSecond(s: State, p: Pass) {
    Begins(s, p) && s.stored.Some? && s.stored.value.startedAt == p.now
  }

  ghost predicate Increasing(s: seq<int>) {
    forall i, j :: 0 <= i < j < |s| ==> s[i] < s[j]
  }

  lemma {:induction false} StartsArePast(passes: seq<Pass>, states: seq<State>, n: nat, now: int)
    requires IsRun(passes, states) && n <= |passes| && forall i :: 0 <= i < n ==> passes[i].now <= now
    ensures forall i :: 0 <= i < |Begun(passes, states, n)| ==> Begun(passes, states, n)[i] <= now
  {
    hide Begins;
    if n > 0 {
      StartsArePast(passes, states, n - 1, now);
    }
  }

  lemma {:induction false} IncreasingAppend(s: seq<int>, x: int)
    requires forall i :: 0 <= i < |s| ==> s[i] <= x
    ensures Increasing(s + [x]) <==> Increasing(s) && (s == [] || Last(s) < x)
  {
    var t := s + [x];
    assert forall i :: 0 <= i < |s| ==> t[i] == s[i];
    if Increasing(t) {
      assert s != [] ==> t[|s| - 1] < t[|s|];
      forall i, j | 0 <= i < j < |s|
        ensures s[i] < s[j]
      {
        assert t[i] < t[j];
      }
    }
    if Increasing(s) && s != [] && Last(s) < x {
      assert forall i :: 0 <= i < |s| - 1 ==> s[i] < Last(s);
    }
  }

  /** The start of an attempt tells it from every other exactly as long as no pass begins an attempt in the second
      in which its predecessor began. */
  lemma {:induction false} StartsDistinctIff(passes: seq<Pass>, states: seq<State>, n: nat)
    requires IsRun(passes, states) && n <= |passes|
    ensures Increasing(Begun(passes, states, n)) <==> forall i :: 0 <= i < n ==> !SameSecond(states[i], passes[i])
  {
    hide Begins, Increasing;
    if n > 0 {
      StartsDistinctIff(passes, states, n - 1);
      OneMetricPerAttempt(passes, states, n - 1);
      StartsArePast(passes, states, n - 1, passes[n - 1].now);
      IncreasingAppend(Begun(passes, states, n - 1), passes[n - 1].now);
      assert Begun(passes, states, n - 1) + [] == Begun(passes, states, n - 1);
    } else {
      assert Increasing([]) by { NothingIncreasing(); }
    }
  }

  lemma {:induction false} NothingIncreasing()
    ensures Increasing([])
  {
  }

  /** So as long as no pass does that, no two metrics have one start, and an attempt still in progress has none. */
  lemma {:induction false} AtMostOneMetricPerStart(passes: seq<Pass>, states: seq<State>, n: nat, i: nat, j: nat)
    requires IsRun(passes, states) && n <= |passes|
    requires forall k :: 0 <= k < n ==> !SameSecond(states[k], passes[k])
    requires i < j < |states[n].emitted|
    ensures states[n].emitted[i].startedAt != states[n].emitted[j].startedAt
    ensures InProgress(states[n].stored) ==> states[n].stored.value.startedAt != states[n].emitted[i].startedAt
  {
    OneMetricPerAttempt(passes, states, n);
    StartsDistinctIff(passes, states, n);
    var all, starts := Begun(passes, states, n), StartsOf(states[n].emitted);
    assert all[i] == starts[i] && all[j] == starts[j];
    if InProgress(states[n].stored) {
      assert all[|starts|] == states[n].stored.value.startedAt;
    }
  }

  /** A metric is emitted only after a patch that stores the end of its attempt, or a successor that begins later,
      unless the successor begins in the same second. */
  lemma {:induction false} EmittedAfterPersisting(s: State, p: Pass)
    requires Effective(s.stored, p) && Pending(s.stored, p).Some? && s.stored.value.startedAt <= p.now
    requires !SameSecond(s, p)
    ensures p.patched
    ensures Calculate(s.stored, p) != s.stored
    ensures Calculate(s.stored, p) == Pending(s.stored, p)
      || Calculate(s.stored, p).value.startedAt > s.stored.value.startedAt
  {
  }

  /** A rollout begins, its template changes within the same second in a pass that leaves the rest of the status alone,
      and it is aborted later. */
  const FIRST := Pass(7, false, true, false, false, false, false, None, None, false, true, true)
  const AGAIN := Pass(7, false, true, false, false, false, false, None, None, false, false, false)
  const ABORT := Pass(9, false, false, false, false, true, false, None, None, false, true, true)

  lemma {:induction false} ExamplePasses()
    ensures Calculate(None, FIRST) == Some(Begin(7)) && Pending(None, FIRST) == None
    ensures Calculate(Some(Begin(7)), AGAIN) == Some(Begin(7))
    ensures Pending(Some(Begin(7)), AGAIN) == Some(Complete(Begin(7), 7, Superseded))
    ensures Calculate(Some(Begin(7)), ABORT) == Pending(Some(Begin(7)), ABORT) == Some(Complete(Begin(7), 9, Aborted))
  {
  }

  lemma {:induction false} FirstHappens(s: State, s': State)
    requires s == State(None, []) && s' == State(Some(Begin(7)), [])
    ensures Happens(FIRST, s, s')
  {
    hide Calculate, Pending, Starts, Begin, Complete;
    ExamplePasses();
  }

  lemma {:induction false} AgainHappens(s: State, s': State, superseded: Duration)
    requires superseded == Complete(Begin(7), 7, Superseded)
    requires s == State(Some(Begin(7)), []) && s' == s.(emitted := [superseded])
    ensures Happens(AGAIN, s, s')
  {
    hide Calculate, Pending, Starts, Begin, Complete;
    ExamplePasses();
  }

  lemma {:induction false} AbortHappens(s: State, s': State, aborted: Duration)
    requires aborted == Complete(Begin(7), 9, Aborted)
    requires s.stored == Some(Begin(7)) && s' == State(Some(aborted), s.emitted + [aborted])
    ensures Happens(ABORT, s, s')
  {
    hide Calculate, Pending, Starts, Begin, Complete;
    ExamplePasses();
  }

  /** Then the second pass stores nothing, and two metrics have the same start. */
  lemma {:induction false} SameSecondCountsTwice() returns (passes: seq<Pass>, states: seq<State>)
    ensures IsRun(passes, states) && |states| == 4
    ensures states[2].stored == states[1].stored && !passes[1].patched
    ensures |states[3].emitted| == 2 && states[3].emitted[0].startedAt == states[3].emitted[1].startedAt
  {
    hide Happens;
    var superseded, aborted := Complete(Begin(7), 7, Superseded), Complete(Begin(7), 9, Aborted);
    var s0, s1 := State(None, []), State(Some(Begin(7)), []);
    var s2, s3 := State(Some(Begin(7)), [superseded]), State(Some(aborted), [superseded, aborted]);
    FirstHappens(s0, s1);
    AgainHappens(s1, s2, superseded);
    AbortHappens(s2, s3, aborted);
    passes, states := [FIRST, AGAIN, ABORT], [s0, s1, s2, s3];
  }

  // ---------------------------------------------------------------------------------------------
  // Manual pauses

  /** The pauses recorded up to `now` fit into the time of the attempt. */
  predicate PausesFit(d: Duration, now: int) {
    var end := if d.finishedAt.Some? then d.finishedAt.value else now;
    && d.startedAt <= end <= now && d.totalPaused >= 0
    && (d.finishedAt.Some? ==> d.pausedAt == None && d.status.Some?)
    && (d.pausedAt.Some? ==> d.startedAt <= d.pausedAt.value <= now && d.totalPaused <= d.pausedAt.value - d.startedAt)
    && (d.pausedAt == None ==> d.totalPaused <= end - d.startedAt)
  }

  lemma {:induction false} ClosedKeepsPauses(stored: Option<Duration>, p: Pass)
    requires stored.Some? ==> PausesFit(stored.value, p.now)
    ensures Closed(stored, p).Some? ==> PausesFit(Closed(stored, p).value, p.now)
    ensures InProgress(stored) && Ended(Closed(stored, p)) ==> Closed(stored, p).value.finishedAt == Some(p.now)
  {
  }

  lemma {:induction false} PacedKeepsPauses(d: Duration, wasPaused: bool, p: Pass)
    requires PausesFit(d, p.now) && d.finishedAt == None
    ensures PausesFit(Paced(d, wasPaused, p), p.now)
  {
  }

  lemma {:induction false} PassKeepsPauses(stored: Option<Duration>, p: Pass)
    requires stored.Some? ==> PausesFit(stored.value, p.now)
    ensures Calculate(stored, p).Some? ==> PausesFit(Calculate(stored, p).value, p.now)
    ensures Pending(stored, p).Some? ==>
      PausesFit(Pending(stored, p).value, p.now) && Pending(stored, p).value.finishedAt == Some(p.now)
  {
    hide Closed, Paced, Starts;
    ClosedKeepsPauses(stored, p);
    PacedKeepsPauses(Begin(p.now), false, p);
    if InProgress(Closed(stored, p)) {
      PacedKeepsPauses(Closed(stored, p).value, stored.Some? && stored.value.pausedAt.Some?, p);
    }
  }

  /** In every run, and for every emitted metric, accumulated manual pauses together with an open one never exceed the
      time since the attempt began. */
  lemma {:induction false} PausesNeverExceed(passes: seq<Pass>, states: seq<State>, n: nat, now: int)
    requires IsRun(passes, states) && n <= |passes| && forall i :: 0 <= i < n ==> passes[i].now <= now
    ensures states[n].stored.Some? ==> PausesFit(states[n].stored.value, now)
    ensures InProgress(states[n].stored) ==>
      var d := states[n].stored.value;
      d.totalPaused + Since(d.pausedAt, now) <= now - d.startedAt
    ensures forall i :: 0 <= i < |states[n].emitted| ==>
      var d := states[n].emitted[i];
      d.finishedAt.Some? && d.status.Some? && 0 <= d.totalPaused <= d.finishedAt.value - d.startedAt
  {
    hide Calculate, Pending, Effective;
    if n > 0 {
      var p := passes[n - 1];
      PausesNeverExceed(passes, states, n - 1, p.now);
      assert Happens(p, states[n - 1], states[n]);
      PassKeepsPauses(states[n - 1].stored, p);
    }
  }

  // ---------------------------------------------------------------------------------------------
  // What one pass does to the record

  /** How the attempt of a record in progress comes to an end in this pass, if it does: it is superseded by a change
      that does not go back; or the rollout is at its target, or aborted, and then a change that goes back says how,
      or else the outcome known before, or that of a promotion in this pass. */
  function EndOf(d: Duration, p: Pass): Option<Completion> {
    match p.rollback
    case None =>
      if p.podSpecChanged then Some(Superseded)
      else if d.status.Some? && ((p.promoted && p.atReplicas) || p.isAborted) then d.status
      else if p.promotion.Some? && ((p.promoted && p.atReplicas) || p.isAborted) then p.promotion
      else if p.promoted && p.atReplicas then Some(Promoted)
      else if p.isAborted then Some(Aborted)
      else None
    case Some(fast) =>
      if (!p.promoted || !p.atReplicas) && !p.isAborted then None
      else if p.podSpecChanged then Some(if fast then FastRolledBack else RolledBack)
      else if d.status.Some? then d.status
      else if p.promotion.Some? then p.promotion
      else Some(if p.promoted && p.atReplicas then Promoted else Aborted)
  }

  /** A metric is set aside exactly for an attempt in progress that comes to an end, and says when it began and ended,
      how, and for how long it was paused, an open pause included. */
  lemma {:induction false} MetricTellsOutcome(stored: Option<Duration>, p: Pass)
    ensures Pending(stored, p) ==
      match stored
      case None => None
      case Some(d) =>
        if p.invalidSpec || d.finishedAt.Some? || EndOf(d, p) == None then None
        else
          var open := match d.pausedAt case None => 0 case Some(t) => p.now - t;
          Some(Duration(d.startedAt, None, d.totalPaused + open, Some(p.now), EndOf(d, p)))
  {
  }

  /** Over every run, each emitted metric is that of an attempt in progress that came to an end in some pass, which had
      its effect: it says so, and for how long the attempt had lasted and was paused until then. */
  lemma {:induction false} EmittedTellsOutcome(passes: seq<Pass>, states: seq<State>, n: nat, k: nat) returns (j: nat)
    requires IsRun(passes, states) && n <= |passes| && k < |states[n].emitted|
    ensures j < n && !passes[j].invalidSpec && InProgress(states[j].stored) && k == |states[j].emitted|
    ensures
      var d, p := states[j].stored.value, passes[j];
      var open := match d.pausedAt case None => 0 case Some(t) => p.now - t;
      && EndOf(d, p).Some? && (p.patched || (!p.othersChanged && states[j + 1].stored == states[j].stored))
      && states[n].emitted[k] == Duration(d.startedAt, None, d.totalPaused + open, Some(p.now), EndOf(d, p))
  {
    hide Calculate, Pending, EndOf;
    var s, p := states[n - 1], passes[n - 1];
    assert Happens(p, s, states[n]);
    MetricTellsOutcome(s.stored, p);
    if k < |s.emitted| {
      j := EmittedTellsOutcome(passes, states, n - 1, k);
    } else {
      j := n - 1;
    }
  }

  /** Nothing of the record is in progress after this pass, unless an attempt begins. */
  predicate IsFree(stored: Option<Duration>, p: Pass) {
    match stored
    case None => true
    case Some(d) => d.finishedAt.Some? || EndOf(d, p).Some?
  }

  /** An attempt begins exactly when none is in progress, the one recorded or just ended is not at its target, and
      there is a change to roll out, away from the target, or an aborted rollout is retried. */
  lemma {:induction false} BeginsWhen(stored: Option<Duration>, p: Pass)
    ensures Starts(stored, p) <==>
      var atTarget := p.promoted && p.atReplicas;
      && !p.invalidSpec && IsFree(stored, p) && (stored == None || !atTarget)
      && ((p.wasAborted && !p.isAborted) || (p.podSpecChanged && !atTarget))
  {
  }

  /** The record after a pass: of an attempt that begins; of one that goes on, with its pause opened or closed and the
      outcome it heads for; or of one that has ended. */
  lemma {:induction false} RecordOutcome(stored: Option<Duration>, p: Pass)
    ensures Starts(stored, p) ==>
      Calculate(stored, p) == Some(Duration(p.now, if p.manualPause then Some(p.now) else None, 0, None, None))
    ensures !Starts(stored, p) && Pending(stored, p).Some? ==> Calculate(stored, p) == Pending(stored, p)
    ensures stored == None && !Starts(stored, p) ==> Calculate(stored, p) == None
    ensures stored.Some? && !Starts(stored, p) && Pending(stored, p) == None ==>
      var d := stored.value;
      var noted := if d.status.Some? then d.status else p.promotion;
      && Calculate(stored, p).Some?
      && var d' := Calculate(stored, p).value;
      if p.invalidSpec || d.finishedAt.Some? then d' == d.(status := noted)
      else
        && d'.startedAt == d.startedAt && d'.finishedAt == None
        && d'.status == (if !p.podSpecChanged then noted
                         else Some(if p.rollback == Some(true) then FastRolledBack else RolledBack))
        && d'.pausedAt == (if !p.manualPause then None else if d.pausedAt.Some? then d.pausedAt else Some(p.now))
        && d'.totalPaused ==
             if d.pausedAt.Some? && !p.manualPause then d.totalPaused + (p.now - d.pausedAt.value) else d.totalPaused
  {
  }
}
