/** Which plugins a reconcile calls and what it stores, told from the list of statuses entry by entry. */
module StepPluginOutcomes {
  import opened Prelude
  import opened StepPlugins

  // ---------------------------------------------------------------------------------------------
  // An abort

  /** The list has an entry of this index and operation. */
  ghost predicate Listed(statuses: seq<Status>, index: nat, op: Operation) {
    exists i :: 0 <= i < |statuses| && statuses[i].index == index && statuses[i].op == op
  }

  /** Entry `j` is a run, under way or successful, of an enabled plugin of a plugin step that was not aborted. */
  ghost predicate Compensable(start: seq<Status>, steps: Steps, plugins: Plugins, j: nat)
    requires j < |start|
  {
    var s := start[j];
    && s.op == Run && !s.disabled && (s.phase == Running || s.phase == Successful)
    && s.index < |steps| && steps[s.index].Some? && plugins.resolve(s.index) == Enabled
    && !Listed(start, s.index, Abort)
  }

  /** What is stored for an answer to an abort or a termination, which never leaves a step running. */
  function AnswerPhase(reply: Reply): PluginPhase {
    match reply
    case RpcError => Error
    case BadPhase => Error
    case Phase(p) =>
      match p
      case Unset => Successful
      case Running => Failed
      case _ => p
  }

  /** An error-free pass from the last entry down to `k` calls Abort for exactly the compensable entries, the last one
      first, and stores one answer for each. */
  lemma {:induction false} AbortCallsExactly(start: seq<Status>, steps: Steps, plugins: Plugins, k: nat)
    returns (places: seq<nat>)
    requires k <= |start| && BelongTo(start, steps) && AbortFrom(start, steps, plugins, k).ok
    ensures
      var p := AbortFrom(start, steps, plugins, k);
      && |p.calls| == |p.added| == |places|
      && (forall i :: 0 <= i < |places| ==> k <= places[i] < |start| && Compensable(start, steps, plugins, places[i]))
      && (forall i :: 0 <= i < |places| ==>
            var s := start[places[i]];
            && p.calls[i] == Call(Abort, s.index)
            && p.added[i] == Status(s.index, s.name, Abort, AnswerPhase(plugins.reply(s.index)), false))
    ensures forall i, j :: 0 <= i < j < |places| ==> places[i] > places[j]
    ensures forall j: nat :: k <= j < |start| && Compensable(start, steps, plugins, j) ==> j in places
    decreases |start| - k
  {
    hide Stuck, NeedsAbort, FinalStatus, Compensable, AnswerPhase;
    places := [];
    if k < |start| {
      places := AbortCallsExactly(start, steps, plugins, k + 1);
      assert Belongs(start[k], steps);
      NeededIsCompensable(start, steps, plugins, k);
      if NeedsAbort(start, steps, plugins, k) {
        StoredAnswer(start[k], Abort, plugins.reply(start[k].index));
        places := places + [k];
      }
    }
  }

  lemma {:induction false} NeededIsCompensable(start: seq<Status>, steps: Steps, plugins: Plugins, k: nat)
    requires k < |start| && start[k].index < |steps|
    ensures NeedsAbort(start, steps, plugins, k) <==> Compensable(start, steps, plugins, k)
  {
  }

  lemma {:induction false} StoredAnswer(s: Status, op: Operation, reply: Reply)
    ensures FinalStatus(s, op, reply) ==
      if reply == BadPhase then None else Some(Status(s.index, s.name, op, AnswerPhase(reply), false))
  {
  }

  /** So every index is called at most once, and exactly when its run is to be compensated. */
  lemma {:induction false} AbortCallsEachOnce(start: seq<Status>, steps: Steps, plugins: Plugins, index: nat)
    requires Valid(start, steps) && AbortFrom(start, steps, plugins, 0).ok
    ensures
      var calls := AbortFrom(start, steps, plugins, 0).calls;
      && (Call(Abort, index) in calls <==>
            exists j: nat :: j < |start| && start[j].index == index && Compensable(start, steps, plugins, j))
      && (forall i, j :: 0 <= i < j < |calls| ==> calls[i] != calls[j])
  {
    hide AbortFrom, Compensable, AnswerPhase;
    var calls := AbortFrom(start, steps, plugins, 0).calls;
    var places := AbortCallsExactly(start, steps, plugins, 0);
    if j: nat :| j < |start| && start[j].index == index && Compensable(start, steps, plugins, j) {
      var i :| 0 <= i < |places| && places[i] == j;
      assert calls[i] == Call(Abort, index);
    }
    if Call(Abort, index) in calls {
      var i :| 0 <= i < |calls| && calls[i] == Call(Abort, index);
      assert start[places[i]].index == index;
    }
    forall i, j | 0 <= i < j < |calls|
      ensures calls[i] != calls[j]
    {
      RunsAreDistinct(start, steps, plugins, places[j], places[i]);
    }
  }

  lemma {:induction false} RunsAreDistinct(start: seq<Status>, steps: Steps, plugins: Plugins, a: nat, b: nat)
    requires Valid(start, steps) && a < b < |start|
    requires Compensable(start, steps, plugins, a) && Compensable(start, steps, plugins, b)
    ensures start[a].index != start[b].index
  {
  }

  /** The entry ends the pass in an error: the plugin of its run cannot be resolved, whatever became of the run, or the
      plugin that is called answers with a phase that does not validate. */
  ghost predicate EndsInError(start: seq<Status>, steps: Steps, plugins: Plugins, j: nat)
    requires j < |start|
  {
    var s := start[j];
    || (s.op == Run && s.index < |steps| && steps[s.index].Some? && plugins.resolve(s.index) == Unresolved)
    || (Compensable(start, steps, plugins, j) && plugins.reply(s.index) == BadPhase)
  }

  /** The pass from the last entry down to `k` is free of errors exactly when none of these entries ends it. */
  lemma {:induction false} AbortFailsWhen(start: seq<Status>, steps: Steps, plugins: Plugins, k: nat)
    requires k <= |start| && BelongTo(start, steps)
    ensures AbortFrom(start, steps, plugins, k).ok <==>
      forall j: nat :: k <= j < |start| ==> !EndsInError(start, steps, plugins, j)
    decreases |start| - k
  {
    hide NeedsAbort, FinalStatus, Compensable, AnswerPhase;
    if k < |start| {
      AbortFailsWhen(start, steps, plugins, k + 1);
      assert Belongs(start[k], steps);
      NeededIsCompensable(start, steps, plugins, k);
      assert EndsInError(start, steps, plugins, k) <==>
        || Stuck(start, steps, plugins, k)
        || (NeedsAbort(start, steps, plugins, k) && plugins.reply(start[k].index) == BadPhase);
      if NeedsAbort(start, steps, plugins, k) {
        StoredAnswer(start[k], Abort, plugins.reply(start[k].index));
      }
    }
  }

  // ---------------------------------------------------------------------------------------------
  // A full promotion

  /** Entry `i` is the last run under way, and no termination succeeded behind it. */
  ghost predicate IsLastRunning(statuses: seq<Status>, i: nat)
    requires i < |statuses|
  {
    && statuses[i].op == Run && statuses[i].phase == Running
    && forall j :: i < j < |statuses| ==>
         && !(statuses[j].op == Run && statuses[j].phase == Running)
         && !(statuses[j].op == Terminate && statuses[j].phase == Successful)
  }

  lemma {:induction false} TargetIsLastRunning(statuses: seq<Status>, n: nat) returns (i: nat)
    requires n <= |statuses|
    requires forall j :: n <= j < |statuses| ==>
      && !(statuses[j].op == Run && statuses[j].phase == Running)
      && !(statuses[j].op == Terminate && statuses[j].phase == Successful)
    ensures StepToTerminate(statuses, n).Some? ==>
      i < |statuses| && IsLastRunning(statuses, i) && StepToTerminate(statuses, n) == Some(statuses[i].index)
    ensures StepToTerminate(statuses, n) == None ==> forall j: nat :: j < |statuses| ==> !IsLastRunning(statuses, j)
  {
    i := 0;
    if n > 0 {
      var s := statuses[n - 1];
      if s.op == Run && s.phase == Running {
        i := n - 1;
      } else if !(s.op == Terminate && s.phase == Successful) {
        i := TargetIsLastRunning(statuses, n - 1);
      }
    }
  }

  /** A full promotion calls Terminate for the last run under way, if its step is a plugin step whose enabled plugin was
      not asked before, and for nothing else; a valid answer is stored at the end. */
  lemma {:induction false} TerminationCallsExactly(before: seq<Status>, steps: Steps, plugins: Plugins,
      after: seq<Status>, calls: seq<Call>, calls': seq<Call>, i: nat)
    requires Valid(before, steps) && IsTermination(before, steps, plugins, after, calls, calls')
    requires i < |before| && IsLastRunning(before, i)
    ensures
      var s := before[i];
      if && !s.disabled && s.index < |steps| && steps[s.index].Some? && plugins.resolve(s.index) == Enabled
         && !Listed(before, s.index, Terminate)
      then
        && calls' == calls + [Call(Terminate, s.index)]
        && after == before + (if plugins.reply(s.index) == BadPhase then []
                              else [Status(s.index, s.name, Terminate, AnswerPhase(plugins.reply(s.index)), false)])
      else calls' == calls && after == before
  {
    hide DistinctKeys, BelongTo, AnswerPhase, FinalStatus;
    var k := TargetIsLastRunning(before, |before|);
    var s := before[i];
    TerminatesWhen(before, steps, plugins, i);
    StatusBelongs(before, steps, s);
    ValidMember(before, steps, i);
    if steps[s.index].Some? {
      StoredAnswer(Status(s.index, s.name, Run, Running, false), Terminate, plugins.reply(s.index));
    }
    assert before + [] == before;
  }

  /** It fails exactly when the plugin of that step cannot be resolved, or is called and answers with a phase that does
      not validate. */
  lemma {:induction false} TerminationFailsWhen(before: seq<Status>, steps: Steps, plugins: Plugins, i: nat)
    requires Valid(before, steps) && i < |before| && IsLastRunning(before, i)
    ensures TerminationFails(before, steps, plugins) <==>
      var s := before[i];
      && s.index < |steps| && steps[s.index].Some?
      && (|| plugins.resolve(s.index) == Unresolved
          || (&& !s.disabled && plugins.resolve(s.index) == Enabled && !Listed(before, s.index, Terminate)
              && plugins.reply(s.index) == BadPhase))
  {
    hide DistinctKeys, BelongTo;
    var k := TargetIsLastRunning(before, |before|);
    TerminatesWhen(before, steps, plugins, i);
  }

  lemma {:induction false} TerminatesWhen(before: seq<Status>, steps: Steps, plugins: Plugins, i: nat)
    requires Valid(before, steps) && i < |before| && StepToTerminate(before, |before|) == Some(before[i].index)
    requires before[i].op == Run && before[i].phase == Running
    ensures
      var s := before[i];
      Terminates(before, steps, plugins) <==>
        && !s.disabled && s.index < |steps| && steps[s.index].Some? && plugins.resolve(s.index) == Enabled
        && !Listed(before, s.index, Terminate)
  {
  }

  lemma {:induction false} ValidMember(statuses: seq<Status>, steps: Steps, i: nat)
    requires Valid(statuses, steps) && i < |statuses|
    ensures Belongs(statuses[i], steps)
  {
  }

  lemma {:induction false} NothingRunningNothingCalled(before: seq<Status>, steps: Steps, plugins: Plugins,
      after: seq<Status>, calls: seq<Call>, calls': seq<Call>)
    requires IsTermination(before, steps, plugins, after, calls, calls')
    requires forall i: nat :: i < |before| ==> !IsLastRunning(before, i)
    ensures calls' == calls && after == before && !TerminationFails(before, steps, plugins)
  {
    var _ := TargetIsLastRunning(before, |before|);
  }

  // ---------------------------------------------------------------------------------------------
  // A normal reconcile

  /** The list has a run of this index, by an enabled plugin, that ended. */
  ghost predicate RunEnded(statuses: seq<Status>, index: nat) {
    exists i :: 0 <= i < |statuses| && statuses[i].index == index && statuses[i].op == Run
      && !statuses[i].disabled && (statuses[i].phase == Successful || statuses[i].phase == Failed)
  }

  /** The plugin of the current step is called, once, exactly when the rollout is progressing, the step is a plugin step
      whose plugin is enabled and did not ask to be left alone, and its run has not ended. */
  lemma {:induction false} RunCallsExactly(start: seq<Status>, steps: Steps, index: Option<nat>, progressing: bool,
      waiting: bool, plugins: Plugins)
    requires Valid(start, steps)
    ensures RunCalls(start, steps, index, progressing, waiting, plugins) ==
      if && index.Some? && index.value < |steps| && steps[index.value].Some? && progressing && !waiting
         && plugins.resolve(index.value) == Enabled && !RunEnded(start, index.value)
      then [Call(Run, index.value)] else []
  {
    hide DistinctKeys, BelongTo;
    if index.Some? && index.value < |steps| && steps[index.value].Some? {
      LookupByKey(start, steps, index.value, Run);
    }
  }

  /** What is stored for the current step: nothing when the plugin does not resolve, has ended or answers with a phase
      that does not validate; a disabled plugin is marked; otherwise the run goes on, with the answered phase if any,
      and Error when the call failed. */
  lemma {:induction false} RunStoresExactly(start: seq<Status>, steps: Steps, index: nat, waiting: bool,
      plugins: Plugins)
    requires Valid(start, steps) && index < |steps| && steps[index].Some?
    ensures
      var name, stored := steps[index].value, RunAfter(start, steps, Some(index), true, waiting, plugins);
      match plugins.resolve(index)
      case Unresolved => stored == None
      case Disabled => stored == Some(Status(index, name, Run, Unset, true))
      case Enabled =>
        if RunEnded(start, index) || (!waiting && plugins.reply(index) == BadPhase) then stored == None
        else
          && stored.Some? && stored.value.index == index && stored.value.name == name && stored.value.op == Run
          && !stored.value.disabled
          && (!waiting && plugins.reply(index) == RpcError ==> stored.value.phase == Error)
          && (!waiting && plugins.reply(index).Phase? && plugins.reply(index).phase != Unset ==>
                stored.value.phase == plugins.reply(index).phase)
          && (waiting || plugins.reply(index) == Phase(Unset) ==>
                if exists i :: IsRunOf(start, i, index) && !start[i].disabled
                then exists i :: IsRunOf(start, i, index) && stored.value == start[i]
                else stored.value.phase == Running)
  {
    hide DistinctKeys, BelongTo;
    LookupByKey(start, steps, index, Run);
    var ran := Lookup(start, index, steps[index].value, Run);
    if i :| IsRunOf(start, i, index) {
      assert ran == Some(start[i]);
    }
    if ran.Some? {
      var i :| 0 <= i < |start| && start[i].index == index && start[i].op == Run;
      assert IsRunOf(start, i, index);
    }
  }

  predicate IsRunOf(statuses: seq<Status>, i: int, index: nat) {
    0 <= i < |statuses| && statuses[i].index == index && statuses[i].op == Run
  }

  /** A normal reconcile fails exactly when it runs a plugin step whose plugin cannot be resolved, or is called and
      answers with a phase that does not validate. */
  lemma {:induction false} RunFailsWhen(start: seq<Status>, steps: Steps, index: Option<nat>, progressing: bool,
      waiting: bool, plugins: Plugins)
    requires Valid(start, steps)
    ensures RunFails(start, steps, index, progressing, waiting, plugins) <==>
      && index.Some? && index.value < |steps| && steps[index.value].Some? && progressing
      && (|| plugins.resolve(index.value) == Unresolved
          || (&& plugins.resolve(index.value) == Enabled && !waiting && !RunEnded(start, index.value)
              && plugins.reply(index.value) == BadPhase))
  {
    hide Valid, RunEnded, Lookup;
    RunCallsExactly(start, steps, index, progressing, waiting, plugins);
  }

  /** `after` is `kept` with `stored` in the place of the first entry of its index and operation, or at the end. */
  ghost predicate Holds(kept: seq<Status>, stored: Option<Status>, after: seq<Status>) {
    match stored
    case None => after == kept
    case Some(s) =>
      || (!Listed(kept, s.index, s.op) && after == kept + [s])
      || exists i :: 0 <= i < |kept| && IsReplaced(kept, s, after, i)
  }

  predicate IsReplaced(kept: seq<Status>, s: Status, after: seq<Status>, i: nat)
    requires i < |kept|
  {
    && kept[i].index == s.index && kept[i].op == s.op && after == kept[i := s]
    && forall j :: 0 <= j < i ==> kept[j].index != s.index || kept[j].op != s.op
  }

  /** A normal reconcile leaves the statuses it found, or none if these were leftovers, with what is stored for the
      current step. */
  lemma {:induction false} RunPassHolds(start: seq<Status>, hasError: bool, statusAbort: bool, steps: Steps,
      index: Option<nat>, progressing: bool, waiting: bool, plugins: Plugins, after: seq<Status>)
    requires IsRunPass(start, hasError, statusAbort, steps, index, progressing, waiting, plugins, after)
    ensures
      var stored := RunAfter(start, steps, index, progressing, waiting, plugins);
      && (IsLeftover(start, hasError, statusAbort, steps, index) ==> Holds([], stored, after))
      && (!IsLeftover(start, hasError, statusAbort, steps, index) ==> Holds(start, stored, after))
  {
    hide IsRetry, IsLeftover, RunAfter;
    LeftoversDroppedWhen(start, hasError, statusAbort, steps, index);
    var stored := RunAfter(start, steps, index, progressing, waiting, plugins);
    var kept := if IsLeftover(start, hasError, statusAbort, steps, index) then [] else start;
    if stored.Some? && HasKey(kept, stored.value.index, stored.value.op) {
      var i: nat :| IsUpdate(kept, after, i, stored.value);
      assert IsReplaced(kept, stored.value, after, i);
    }
  }

  /** A rollout is aborted in a normal reconcile exactly when a plugin it called answers that it failed. */
  lemma {:induction false} RunAbortsExactly(start: seq<Status>, steps: Steps, index: Option<nat>, progressing: bool,
      waiting: bool, plugins: Plugins)
    ensures RunAborts(start, steps, index, progressing, waiting, plugins) <==>
      && RunCalls(start, steps, index, progressing, waiting, plugins) != []
      && plugins.reply(index.value) == Phase(Failed)
  {
  }

  /** A step that is not completed has its enabled plugin called again, unless it is to be left alone; one that is
      completed is called again only if its run was disabled before, or was cut short. */
  lemma {:induction false} CompletedIsNotCalled(start: seq<Status>, steps: Steps, index: nat, plugins: Plugins)
    requires Valid(start, steps) && index < |steps| && steps[index].Some? && plugins.resolve(index) == Enabled
    ensures !StepCompleted(start, index) ==>
      RunCalls(start, steps, Some(index), true, false, plugins) == [Call(Run, index)]
    ensures StepCompleted(start, index) && RunCalls(start, steps, Some(index), true, false, plugins) != [] ==>
      exists i :: IsRunOf(start, i, index)
        && (|| start[i].disabled
            || (start[i].phase == Running && (Listed(start, index, Terminate) || Listed(start, index, Abort))))
    ensures (exists i :: IsRunOf(start, i, index)
               && (|| start[i].disabled || start[i].phase == Successful || start[i].phase == Failed
                   || (start[i].phase == Running && (Listed(start, index, Terminate) || Listed(start, index, Abort)))))
      ==> StepCompleted(start, index)
  {
    RunCallsExactly(start, steps, Some(index), true, false, plugins);
    if i :| 0 <= i < |start| && start[i].index == index && start[i].op == Run {
      assert IsRunOf(start, i, index);
    }
  }

  /** Leftovers of an earlier attempt: a rollout whose stored abort flag is not set is at its first step, which is no
      plugin step, or nothing failed and its run is over or was cut short. */
  ghost predicate IsLeftover(statuses: seq<Status>, hasError: bool, statusAbort: bool, steps: Steps,
      index: Option<nat>)
  {
    && !statusAbort && index == Some(0) && |steps| > 0
    && (steps[0] == None || (!hasError && exists i ::
          && IsRunOf(statuses, i, 0)
          && (|| statuses[i].disabled || statuses[i].phase == Successful || statuses[i].phase == Failed
              || (statuses[i].phase == Running && (Listed(statuses, 0, Terminate) || Listed(statuses, 0, Abort))))))
  }

  /** Exactly leftovers are dropped. */
  lemma {:induction false} LeftoversDroppedWhen(statuses: seq<Status>, hasError: bool, statusAbort: bool,
      steps: Steps, index: Option<nat>)
    ensures IsRetry(statuses, hasError, statusAbort, steps, index) <==>
      IsLeftover(statuses, hasError, statusAbort, steps, index)
  {
    if StepCompleted(statuses, 0) {
      var i :| 0 <= i < |statuses| && statuses[i].index == 0 && statuses[i].op == Run &&
        (|| statuses[i].disabled
         || statuses[i].phase in {Failed, Successful}
         || (statuses[i].phase == Running && (HasKey(statuses, 0, Terminate) || HasKey(statuses, 0, Abort))));
      assert IsRunOf(statuses, i, 0);
    }
  }
}
