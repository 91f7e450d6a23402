/** Step plugins of a canary: the list of operation statuses, and what an abort, a full promotion and a normal
    reconcile do with it. */
module StepPlugins {
  import opened Prelude

  datatype Operation = Run | Terminate | Abort

  /** `Unset` is the phase of a disabled plugin, and of an answer that names none. */
  datatype PluginPhase = Unset | Running | Successful | Failed | Error

  datatype Status = Status(index: nat, name: string, op: Operation, phase: PluginPhase, disabled: bool)

  /** The plugin name of each step that is a plugin step. */
  type Steps = seq<Option<string>>

  datatype Resolution = Unresolved | Disabled | Enabled

  /** What a plugin answers to an operation; `BadPhase` is a phase that does not validate. */
  datatype Reply = RpcError | BadPhase | Phase(phase: PluginPhase)

  datatype Call = Call(op: Operation, index: nat)

  /** How plugins resolve and answer in one reconcile. */
  datatype Plugins = Plugins(resolve: nat -> Resolution, reply: nat -> Reply)

  // ---------------------------------------------------------------------------------------------
  // The list of statuses

  /** No two statuses share index and operation. */
  ghost predicate DistinctKeys(statuses: seq<Status>) {
    forall i, j :: 0 <= i < j < |statuses| ==>
      statuses[i].index != statuses[j].index || statuses[i].op != statuses[j].op
  }

  /** The statuses belong to these steps: a status of a plugin step carries its name. */
  ghost predicate BelongTo(statuses: seq<Status>, steps: Steps) {
    forall i :: 0 <= i < |statuses| ==> Belongs(statuses[i], steps)
  }

  predicate Belongs(s: Status, steps: Steps) {
    s.index < |steps| && (steps[s.index].Some? ==> s.name == steps[s.index].value)
  }

  ghost predicate Valid(statuses: seq<Status>, steps: Steps) {
    DistinctKeys(statuses) && BelongTo(statuses, steps)
  }

  predicate HasKey(statuses: seq<Status>, index: nat, op: Operation) {
    exists i :: 0 <= i < |statuses| && statuses[i].index == index && statuses[i].op == op
  }

  /** The status a plugin finds for one of its own operations. */
  function Lookup(statuses: seq<Status>, index: nat, name: string, op: Operation): (s: Option<Status>)
    ensures s.Some? ==> s.value.index == index && s.value.name == name && s.value.op == op
  {
    if statuses == [] then None
    else if statuses[0].index == index && statuses[0].name == name && statuses[0].op == op then Some(statuses[0])
    else Lookup(statuses[1..], index, name, op)
  }

  lemma {:induction false} LookupByKey(statuses: seq<Status>, steps: Steps, index: nat, op: Operation)
    requires Valid(statuses, steps) && index < |steps| && steps[index].Some?
    ensures Lookup(statuses, index, steps[index].value, op).Some? <==> HasKey(statuses, index, op)
    ensures forall i :: 0 <= i < |statuses| && statuses[i].index == index && statuses[i].op == op ==>
      Lookup(statuses, index, steps[index].value, op) == Some(statuses[i])
  {
    if statuses != [] {
      LookupByKey(statuses[1..], steps, index, op);
      if HasKey(statuses[1..], index, op) {
        var i :| 0 <= i < |statuses| - 1 && statuses[1..][i].index == index && statuses[1..][i].op == op;
        assert statuses[i + 1].index == index && statuses[i + 1].op == op;
      }
      assert Belongs(statuses[0], steps);
      forall i | 0 < i < |statuses| && statuses[i].index == index && statuses[i].op == op
        ensures Lookup(statuses, index, steps[index].value, op) == Some(statuses[i])
      {
        assert statuses[1..][i - 1] == statuses[i];
      }
    }
  }

  // ---------------------------------------------------------------------------------------------
  // An abort, told entry by entry

  /** The outcome of part of an abort pass: the plugin calls made, the statuses added, and whether it goes on. */
  datatype Pass = Pass(calls: seq<Call>, added: seq<Status>, ok: bool)

  /** The status an abort or a termination leaves, unless its phase does not validate; neither can stay running. */
  function FinalStatus(s: Status, op: Operation, reply: Reply): Option<Status> {
    match reply
    case BadPhase => None
    case RpcError => Some(Status(s.index, s.name, op, Error, false))
    case Phase(p) =>
      Some(Status(s.index, s.name, op, if p == Unset then Successful else if p == Running then Failed else p, false))
  }

  /** A step to compensate: it ran, or still runs, as an enabled plugin, and was not aborted before. */
  predicate NeedsAbort(start: seq<Status>, steps: Steps, plugins: Plugins, k: nat)
    requires k < |start| && start[k].index < |steps|
  {
    var s := start[k];
    && s.op == Run && steps[s.index].Some? && plugins.resolve(s.index) == Enabled
    && !HasKey(start, s.index, Abort)
    && !s.disabled && s.phase in {Running, Successful}
  }

  /** A plugin step that ran but cannot be resolved now. */
  predicate Stuck(start: seq<Status>, steps: Steps, plugins: Plugins, k: nat)
    requires k < |start| && start[k].index < |steps|
  {
    start[k].op == Run && steps[start[k].index].Some? && plugins.resolve(start[k].index) == Unresolved
  }

  /** The pass over the entries from the last down to `k`. */
  function AbortFrom(start: seq<Status>, steps: Steps, plugins: Plugins, k: nat): Pass
    requires k <= |start| && forall i :: 0 <= i < |start| ==> start[i].index < |steps|
    decreases |start| - k
  {
    if k == |start| then Pass([], [], true)
    else
      var later := AbortFrom(start, steps, plugins, k + 1);
      if !later.ok then later
      else if Stuck(start, steps, plugins, k) then later.(ok := false)
      else if !NeedsAbort(start, steps, plugins, k) then later
      else
        var status := FinalStatus(start[k], Abort, plugins.reply(start[k].index));
        Pass(later.calls + [Call(Abort, start[k].index)],
             if status.Some? then later.added + [status.value] else later.added,
             status.Some?)
  }

  class StepPluginContext {
    var statuses: seq<Status>
    var hasError: bool

    /** Every operation asked of a plugin, in order. */
    var calls: seq<Call>

    constructor (stored: seq<Status>)
      ensures statuses == stored && !hasError && calls == []
    {
      statuses, hasError, calls := stored, false, [];
    }

    /** Store a status: it replaces the one of its index and operation in place, or goes to the end. */
    method UpdateStepPluginStatus(status: Option<Status>) returns (phaseChanged: bool)
      modifies this`statuses
      ensures status == None ==> statuses == old(statuses) && !phaseChanged
      ensures status.Some? && !HasKey(old(statuses), status.value.index, status.value.op) ==>
        statuses == old(statuses) + [status.value] && phaseChanged
      ensures status.Some? && HasKey(old(statuses), status.value.index, status.value.op) ==>
        exists i: nat :: IsUpdate(old(statuses), statuses, i, status.value)
          && (phaseChanged <==> old(statuses)[i].phase != status.value.phase)
    {
      phaseChanged := false;
      if status == None {
        return;
      }
      var s := status.value;
      for i := 0 to |statuses|
        invariant statuses == old(statuses)
        invariant forall k :: 0 <= k < i ==> statuses[k].index != s.index || statuses[k].op != s.op
      {
        if statuses[i].index == s.index && statuses[i].op == s.op {
          phaseChanged := statuses[i].phase != s.phase;
          statuses := statuses[i := s];
          assert IsUpdate(old(statuses), statuses, i, s);
          return;
        }
      }
      statuses := statuses + [s];
      phaseChanged := true;
    }

    /** An abort compensates the steps that ran, the last one first. It works on the statuses as they were when the
        pass began, and adds to their end. */
    method AbortSteps(steps: Steps, plugins: Plugins)
      requires Valid(statuses, steps)
      modifies this
      ensures
        var p := AbortFrom(old(statuses), steps, plugins, 0);
        && statuses == old(statuses) + p.added
        && calls == old(calls) + p.calls
        && hasError == (old(hasError) || !p.ok)
    {
      hide DistinctKeys, HasKey, FinalStatus;
      var start, i := statuses, |statuses|;
      while i > 0
        invariant 0 <= i <= |start| && hasError == old(hasError)
        invariant AbortFrom(start, steps, plugins, i).ok
        invariant statuses == start + AbortFrom(start, steps, plugins, i).added
        invariant calls == old(calls) + AbortFrom(start, steps, plugins, i).calls
      {
        i := i - 1;
        var s := statuses[i];
        assert s == start[i] && Belongs(s, steps);
        AbortStops(start, steps, plugins, i);
        if s.op == Run && steps[s.index].Some? {
          var resolution := plugins.resolve(s.index);
          if resolution == Unresolved {
            hasError := true;
            return;
          }
          LookupByKey(start, steps, s.index, Abort);
          LookupByKey(start, steps, s.index, Run);
          var ran := Lookup(start, s.index, steps[s.index].value, Run);
          var aborted := Lookup(start, s.index, steps[s.index].value, Abort);
          var pending := ran.Some? && !ran.value.disabled && ran.value.phase in {Running, Successful};
          if resolution == Enabled && aborted == None && pending {
            calls := calls + [Call(Abort, s.index)];
            var status := FinalStatus(ran.value, Abort, plugins.reply(s.index));
            if status == None {
              hasError := true;
              return;
            }
            FreshAbort(start, steps, plugins, i);
            FinalKey(s, Abort, plugins.reply(s.index));
            var _ := UpdateStepPluginStatus(status);
          }
        }
      }
    }

    method GetStepToTerminate() returns (index: Option<nat>)
      ensures index == StepToTerminate(statuses, |statuses|)
    {
      var i := |statuses|;
      while i > 0
        invariant 0 <= i <= |statuses| && StepToTerminate(statuses, |statuses|) == StepToTerminate(statuses, i)
      {
        i := i - 1;
        if statuses[i].op == Terminate && statuses[i].phase == Successful {
          return None;
        }
        if statuses[i].op == Run && statuses[i].phase == Running {
          return Some(statuses[i].index);
        }
      }
      return None;
    }

    /** A full promotion terminates the one step that is still running. */
    method TerminateStep(steps: Steps, plugins: Plugins)
      requires Valid(statuses, steps)
      modifies this
      ensures IsTermination(old(statuses), steps, plugins, statuses, old(calls), calls)
      ensures Valid(statuses, steps)
      ensures hasError == (old(hasError) || TerminationFails(old(statuses), steps, plugins))
    {
      hide DistinctKeys, BelongTo, FinalStatus;
      var index := GetStepToTerminate();
      TerminateTarget(statuses, |statuses|);
      if index == None {
        return;
      }
      var s := TargetAt(statuses, index.value);
      StatusBelongs(statuses, steps, s);
      if steps[index.value] == None {
        return;
      }
      var resolution := plugins.resolve(index.value);
      if resolution == Unresolved {
        hasError := true;
        return;
      }
      LookupByKey(statuses, steps, index.value, Terminate);
      LookupByKey(statuses, steps, index.value, Run);
      var ran := Lookup(statuses, index.value, steps[index.value].value, Run);
      var terminated := Lookup(statuses, index.value, steps[index.value].value, Terminate);
      if resolution == Disabled || terminated.Some? || ran == None || ran.value.disabled || ran.value.phase != Running {
        return;
      }
      calls := calls + [Call(Terminate, index.value)];
      var status := FinalStatus(ran.value, Terminate, plugins.reply(index.value));
      FinalKey(ran.value, Terminate, plugins.reply(index.value));
      if status == None {
        hasError := true;
        return;
      }
      ghost var before := statuses;
      var _ := UpdateStepPluginStatus(status);
      AddKeepsValid(before, steps, status.value);
    }

    method IsStepPluginCompleted(steps: Steps, index: nat) returns (completed: bool)
      requires DistinctKeys(statuses)
      ensures completed <==> !hasError && StepCompleted(statuses, index)
    {
      if hasError {
        return false;
      }
      var ran := FindCurrentStepStatus(index, Run);
      if ran == None {
        return false;
      }
      if ran.value.disabled {
        return true;
      }
      if ran.value.phase == Running {
        var terminated := FindCurrentStepStatus(index, Terminate);
        var aborted := FindCurrentStepStatus(index, Abort);
        return terminated.Some? || aborted.Some?;
      }
      return ran.value.phase in {Failed, Successful};
    }

    method FindCurrentStepStatus(index: nat, op: Operation) returns (status: Option<Status>)
      requires DistinctKeys(statuses)
      ensures status.Some? <==> HasKey(statuses, index, op)
      ensures forall i :: 0 <= i < |statuses| && statuses[i].index == index && statuses[i].op == op ==>
        status == Some(statuses[i])
    {
      for i := 0 to |statuses|
        invariant forall k :: 0 <= k < i ==> statuses[k].index != index || statuses[k].op != op
      {
        if statuses[i].index == index && statuses[i].op == op {
          return Some(statuses[i]);
        }
      }
      return None;
    }

    /** Back at the first step of a rollout that is not aborted, statuses are leftovers of an earlier attempt unless
        the first step is a plugin that has not completed. */
    method CleanStatusForRetry(statusAbort: bool, steps: Steps, index: Option<nat>)
      requires DistinctKeys(statuses)
      modifies this`statuses
      ensures statuses == if IsRetry(old(statuses), hasError, statusAbort, steps, index) then [] else old(statuses)
    {
      if statuses == [] || statusAbort || index == None || index.value >= |steps| || index.value > 0 {
        return;
      }
      var shouldClean := true;
      if steps[0].Some? {
        shouldClean := IsStepPluginCompleted(steps, 0);
      }
      if shouldClean {
        statuses := [];
      }
    }

    /** Store the answer of a plugin. */
    method StoreStatus(steps: Steps, status: Status)
      requires Valid(statuses, steps) && Belongs(status, steps)
      modifies this`statuses
      ensures Valid(statuses, steps) && Stores(old(statuses), statuses, status)
    {
      hide DistinctKeys, BelongTo, HasKey, IsUpdate;
      ValidKeys(statuses, steps);
      ghost var before := statuses;
      var _ := UpdateStepPluginStatus(Some(status));
      UpdateKeepsValid(before, statuses, steps, status);
    }

    /** A normal reconcile runs the plugin of the current step. `waiting` says its last run asked to be left alone
        for longer. The plugin sees the statuses as they were before leftovers were removed. */
    method RunStep(statusAbort: bool, steps: Steps, index: Option<nat>, progressing: bool, waiting: bool,
        plugins: Plugins)
      returns (addAbort: bool)
      requires Valid(statuses, steps)
      modifies this
      ensures Valid(statuses, steps)
      ensures IsRunPass(old(statuses), old(hasError), statusAbort, steps, index, progressing, waiting, plugins,
                        statuses)
      ensures calls == old(calls) + RunCalls(old(statuses), steps, index, progressing, waiting, plugins)
      ensures hasError == (old(hasError) || RunFails(old(statuses), steps, index, progressing, waiting, plugins))
      ensures addAbort <==> RunAborts(old(statuses), steps, index, progressing, waiting, plugins)
    {
      hide Valid, IsRetry, Stores, Lookup, DistinctKeys, BelongTo, HasKey, StepCompleted, IsUpdate;
      addAbort := false;
      var start := statuses;
      ValidKeys(statuses, steps);
      CleanStatusForRetry(statusAbort, steps, index);
      NoneValid(steps);
      if index == None || index.value >= |steps| || steps[index.value] == None || !progressing {
        return;
      }
      var resolution := plugins.resolve(index.value);
      if resolution == Unresolved {
        hasError := true;
        return;
      }
      var name := steps[index.value].value;
      var status := Status(index.value, name, Run, Unset, true);
      if resolution == Enabled {
        var ran := Lookup(start, index.value, name, Run);
        status :=
          if ran == None || ran.value.disabled then Status(index.value, name, Run, Running, false) else ran.value;
        if status.phase in {Successful, Failed} {
          return;
        }
        if !waiting {
          calls := calls + [Call(Run, index.value)];
          match plugins.reply(index.value) {
            case BadPhase =>
              hasError := true;
              return;
            case RpcError =>
              status := status.(phase := Error);
            case Phase(p) =>
              status := if p == Unset then status else status.(phase := p);
          }
        }
      }
      StoreStatus(steps, status);
      addAbort := !status.disabled && status.phase == Failed;
    }

    /** One reconcile of the step plugins. `statusAbort` is the stored flag, `aborted` what the reconcile was told. */
    method Reconcile(statusAbort: bool, aborted: bool, promoted: bool, steps: Steps, index: Option<nat>,
        progressing: bool, waiting: bool, plugins: Plugins)
      returns (addAbort: bool)
      requires Valid(statuses, steps)
      modifies this
      ensures Valid(statuses, steps)
      ensures aborted ==>
        && statuses == old(statuses) + AbortFrom(old(statuses), steps, plugins, 0).added
        && calls == old(calls) + AbortFrom(old(statuses), steps, plugins, 0).calls
      ensures !aborted && promoted ==> IsTermination(old(statuses), steps, plugins, statuses, old(calls), calls)
      ensures !aborted && !promoted ==>
        && IsRunPass(old(statuses), old(hasError), statusAbort, steps, index, progressing, waiting, plugins, statuses)
        && calls == old(calls) + RunCalls(old(statuses), steps, index, progressing, waiting, plugins)
      ensures addAbort <==>
        !aborted && !promoted && RunAborts(old(statuses), steps, index, progressing, waiting, plugins)
    {
      hide Valid, AbortFrom, IsTermination, IsRunPass, RunCalls, RunAborts;
      if aborted {
        AbortKeepsStatuses(statuses, steps, plugins);
        AbortSteps(steps, plugins);
        return false;
      }
      if promoted {
        TerminateStep(steps, plugins);
        return false;
      }
      addAbort := RunStep(statusAbort, steps, index, progressing, waiting, plugins);
    }
  }

  ghost predicate IsUpdate(before: seq<Status>, after: seq<Status>, i: nat, s: Status) {
    && i < |before| && before[i].index == s.index && before[i].op == s.op
    && after == before[i := s]
    && forall k :: 0 <= k < i ==> before[k].index != s.index || before[k].op != s.op
  }

  /** Either way the keys stay distinct, and those that were there keep their order. */
  lemma {:induction false} UpdateKeepsKeys(before: seq<Status>, after: seq<Status>, i: nat, s: Status)
    requires DistinctKeys(before)
    requires IsUpdate(before, after, i, s) || (after == before + [s] && !HasKey(before, s.index, s.op))
    ensures DistinctKeys(after)
    ensures |after| >= |before|
    ensures forall k :: 0 <= k < |before| ==> after[k].index == before[k].index && after[k].op == before[k].op
  {
  }

  lemma {:induction false} FinalKey(s: Status, op: Operation, reply: Reply)
    ensures FinalStatus(s, op, reply) == None <==> reply == BadPhase
    ensures FinalStatus(s, op, reply).Some? ==>
      FinalStatus(s, op, reply).value.index == s.index && FinalStatus(s, op, reply).value.op == op
      && FinalStatus(s, op, reply).value.name == s.name
  {
  }

  /** An error ends the pass for good. */
  lemma {:induction false} AbortStops(start: seq<Status>, steps: Steps, plugins: Plugins, k: nat)
    requires k <= |start| && BelongTo(start, steps)
    ensures !AbortFrom(start, steps, plugins, k).ok ==>
      AbortFrom(start, steps, plugins, 0) == AbortFrom(start, steps, plugins, k)
    decreases k
  {
    if k > 0 {
      AbortStops(start, steps, plugins, k - 1);
    }
  }

  /** What a pass adds are aborts of steps that ran at or after place `k` and were not aborted before. */
  lemma {:induction false} AddedAborts(start: seq<Status>, steps: Steps, plugins: Plugins, k: nat)
    requires k <= |start| && Valid(start, steps)
    ensures forall a :: a in AbortFrom(start, steps, plugins, k).added ==>
      && a.op == Abort && !HasKey(start, a.index, Abort) && Belongs(a, steps)
      && exists j :: k <= j < |start| && start[j].op == Run && start[j].index == a.index
    ensures DistinctKeys(AbortFrom(start, steps, plugins, k).added)
    decreases |start| - k
  {
    hide FinalStatus;
    if k < |start| {
      AddedAborts(start, steps, plugins, k + 1);
      assert Belongs(start[k], steps);
      FinalKey(start[k], Abort, plugins.reply(start[k].index));
    }
  }

  lemma {:induction false} FreshAbort(start: seq<Status>, steps: Steps, plugins: Plugins, k: nat)
    requires k < |start| && Valid(start, steps) && start[k].op == Run && !HasKey(start, start[k].index, Abort)
    ensures !HasKey(start + AbortFrom(start, steps, plugins, k + 1).added, start[k].index, Abort)
  {
    AddedAborts(start, steps, plugins, k + 1);
    var added := AbortFrom(start, steps, plugins, k + 1).added;
    forall i | 0 <= i < |start + added|
      ensures (start + added)[i].index != start[k].index || (start + added)[i].op != Abort
    {
      if i >= |start| {
        assert (start + added)[i] in added;
      }
    }
  }

  // ---------------------------------------------------------------------------------------------
  // Main results about an abort

  function Reversed<T>(s: seq<T>): seq<T> {
    if s == [] then [] else Reversed(s[1..]) + [s[0]]
  }

  /** The steps to compensate, in the order of the list. */
  function Pending(start: seq<Status>, steps: Steps, plugins: Plugins, k: nat): seq<Call>
    requires k <= |start| && forall i :: 0 <= i < |start| ==> start[i].index < |steps|
    decreases |start| - k
  {
    if k == |start| then []
    else
      (if NeedsAbort(start, steps, plugins, k) then [Call(Abort, start[k].index)] else [])
      + Pending(start, steps, plugins, k + 1)
  }

  /** An error-free pass calls exactly the steps to compensate, in reverse order of the list. */
  lemma {:induction false} AbortsInReverse(start: seq<Status>, steps: Steps, plugins: Plugins, k: nat)
    requires k <= |start| && BelongTo(start, steps) && AbortFrom(start, steps, plugins, k).ok
    ensures AbortFrom(start, steps, plugins, k).calls == Reversed(Pending(start, steps, plugins, k))
    decreases |start| - k
  {
    hide NeedsAbort, Stuck;
    if k < |start| {
      AbortsInReverse(start, steps, plugins, k + 1);
      var rest := Pending(start, steps, plugins, k + 1);
      assert ([Call(Abort, start[k].index)] + rest)[1..] == rest;
      assert [] + rest == rest;
    }
  }

  /** An abort pass keeps every status that was there, in particular every Run entry, and keeps the keys distinct. */
  lemma {:induction false} AbortKeepsStatuses(start: seq<Status>, steps: Steps, plugins: Plugins)
    requires Valid(start, steps)
    ensures
      var after := start + AbortFrom(start, steps, plugins, 0).added;
      Valid(after, steps) && after[..|start|] == start
  {
    hide NeedsAbort, Stuck, FinalStatus, AbortFrom;
    AddedAborts(start, steps, plugins, 0);
    var added := AbortFrom(start, steps, plugins, 0).added;
    var after := start + added;
    forall i, j | 0 <= i < |start| <= j < |after|
      ensures after[i].index != after[j].index || after[i].op != after[j].op
    {
      assert after[j] in added;
    }
    forall j | |start| <= j < |after|
      ensures Belongs(after[j], steps)
    {
      assert after[j] in added;
    }
    forall i, j | |start| <= i < j < |after|
      ensures after[i].index != after[j].index || after[i].op != after[j].op
    {
      assert after[i] == added[i - |start|] && after[j] == added[j - |start|];
    }
  }

  /** After an error-free pass every step that had to be compensated has an abort status. */
  lemma {:induction false} CompensatedAll(start: seq<Status>, steps: Steps, plugins: Plugins, k: nat, j: nat)
    requires k <= j < |start| && BelongTo(start, steps) && AbortFrom(start, steps, plugins, k).ok
    requires NeedsAbort(start, steps, plugins, j)
    ensures HasKey(AbortFrom(start, steps, plugins, k).added, start[j].index, Abort)
    decreases |start| - k
  {
    hide NeedsAbort, Stuck, FinalStatus;
    if j > k {
      CompensatedAll(start, steps, plugins, k + 1, j);
      var later, here := AbortFrom(start, steps, plugins, k + 1).added, AbortFrom(start, steps, plugins, k).added;
      var i :| 0 <= i < |later| && later[i].index == start[j].index && later[i].op == Abort;
      assert here[i] == later[i];
    } else {
      var here := AbortFrom(start, steps, plugins, k).added;
      FinalKey(start[k], Abort, plugins.reply(start[k].index));
      assert here[|here| - 1].index == start[j].index;
    }
  }

  lemma {:induction false} NothingPending(start: seq<Status>, steps: Steps, plugins: Plugins, k: nat)
    requires k <= |start| && BelongTo(start, steps)
    requires forall j :: k <= j < |start| ==> !NeedsAbort(start, steps, plugins, j)
    ensures AbortFrom(start, steps, plugins, k).calls == [] && AbortFrom(start, steps, plugins, k).added == []
    decreases |start| - k
  {
    if k < |start| {
      NothingPending(start, steps, plugins, k + 1);
    }
  }

  /** A second pass over the result calls no plugin and adds no entry, whatever the plugins would answer. */
  lemma {:induction false} SecondAbortAddsNothing(start: seq<Status>, steps: Steps, plugins: Plugins,
      reply: nat -> Reply)
    requires Valid(start, steps) && AbortFrom(start, steps, plugins, 0).ok
    ensures
      var after := start + AbortFrom(start, steps, plugins, 0).added;
      BelongTo(after, steps) && AbortFrom(after, steps, plugins.(reply := reply), 0).calls == []
      && AbortFrom(after, steps, plugins.(reply := reply), 0).added == []
  {
    hide AbortFrom, Valid, BelongTo, DistinctKeys;
    ValidBelongs(start, steps);
    AbortKeepsStatuses(start, steps, plugins);
    var added := AbortFrom(start, steps, plugins, 0).added;
    var after := start + added;
    ValidBelongs(after, steps);
    forall j | 0 <= j < |after|
      ensures !NeedsAbort(after, steps, plugins.(reply := reply), j)
    {
      if j < |start| && after[j].op == Run {
        KeysGrow(start, added, start[j].index, Abort);
        if NeedsAbort(start, steps, plugins, j) {
          CompensatedAll(start, steps, plugins, 0, j);
        }
      } else if j >= |start| {
        AddedAborts(start, steps, plugins, 0);
        assert after[j] in added;
      }
    }
    NothingPending(after, steps, plugins.(reply := reply), 0);
  }

  lemma {:induction false} ValidBelongs(statuses: seq<Status>, steps: Steps)
    requires Valid(statuses, steps)
    ensures BelongTo(statuses, steps)
    ensures forall i :: 0 <= i < |statuses| ==> statuses[i].index < |steps|
  {
  }

  lemma {:induction false} KeysGrow(a: seq<Status>, b: seq<Status>, index: nat, op: Operation)
    ensures HasKey(a, index, op) || HasKey(b, index, op) ==> HasKey(a + b, index, op)
  {
    if HasKey(a, index, op) {
      var i :| 0 <= i < |a| && a[i].index == index && a[i].op == op;
      assert (a + b)[i] == a[i];
    } else if HasKey(b, index, op) {
      var i :| 0 <= i < |b| && b[i].index == index && b[i].op == op;
      assert (a + b)[|a| + i] == b[i];
    }
  }

  // ---------------------------------------------------------------------------------------------
  // Termination

  /** The last running step among the first `n` statuses, unless a termination succeeded after it. */
  function StepToTerminate(statuses: seq<Status>, n: nat): Option<nat>
    requires n <= |statuses|
  {
    if n == 0 then None
    else
      var s := statuses[n - 1];
      if s.op == Terminate && s.phase == Successful then None
      else if s.op == Run && s.phase == Running then Some(s.index)
      else StepToTerminate(statuses, n - 1)
  }

  lemma {:induction false} TerminateTarget(statuses: seq<Status>, n: nat)
    requires n <= |statuses|
    ensures StepToTerminate(statuses, n).Some? ==>
      exists i :: 0 <= i < n && statuses[i].op == Run && statuses[i].phase == Running
        && statuses[i].index == StepToTerminate(statuses, n).value
  {
    if n > 0 {
      var s := statuses[n - 1];
      if !(s.op == Terminate && s.phase == Successful) && !(s.op == Run && s.phase == Running) {
        TerminateTarget(statuses, n - 1);
      }
    }
  }

  ghost function TargetAt(statuses: seq<Status>, index: nat): (s: Status)
    requires
      exists i ::
        0 <= i < |statuses| && statuses[i].op == Run && statuses[i].phase == Running && statuses[i].index == index
    ensures s in statuses && s.index == index
  {
    var i :| 0 <= i < |statuses| && statuses[i].op == Run && statuses[i].phase == Running && statuses[i].index == index;
    statuses[i]
  }

  lemma {:induction false} StatusBelongs(statuses: seq<Status>, steps: Steps, s: Status)
    requires Valid(statuses, steps) && s in statuses
    ensures s.index < |steps|
  {
  }

  /** The plugin of the last running step is asked to terminate unless it was asked before. */
  predicate Terminates(statuses: seq<Status>, steps: Steps, plugins: Plugins) {
    var target := StepToTerminate(statuses, |statuses|);
    && target.Some? && target.value < |steps| && steps[target.value].Some?
    && plugins.resolve(target.value) == Enabled
    && !HasKey(statuses, target.value, Terminate)
    && exists i :: 0 <= i < |statuses| && statuses[i].index == target.value && statuses[i].op == Run
         && !statuses[i].disabled && statuses[i].phase == Running
  }

  /** The plugin to terminate cannot be resolved, or its answer does not validate. */
  predicate TerminationFails(statuses: seq<Status>, steps: Steps, plugins: Plugins) {
    var target := StepToTerminate(statuses, |statuses|);
    && target.Some? && target.value < |steps| && steps[target.value].Some?
    && (|| plugins.resolve(target.value) == Unresolved
        || (Terminates(statuses, steps, plugins) && plugins.reply(target.value) == BadPhase))
  }

  ghost predicate IsTermination(before: seq<Status>, steps: Steps, plugins: Plugins, after: seq<Status>,
      calls: seq<Call>, calls': seq<Call>)
  {
    var target := StepToTerminate(before, |before|);
    && (!Terminates(before, steps, plugins) ==> after == before && calls' == calls)
    && (Terminates(before, steps, plugins) ==>
          && calls' == calls + [Call(Terminate, target.value)]
          && if plugins.reply(target.value) == BadPhase then after == before
             else
               var s := Status(target.value, steps[target.value].value, Run, Running, false);
               after == before + [FinalStatus(s, Terminate, plugins.reply(target.value)).value])
  }

  lemma {:induction false} AddKeepsValid(before: seq<Status>, steps: Steps, s: Status)
    requires Valid(before, steps) && !HasKey(before, s.index, s.op) && Belongs(s, steps)
    ensures Valid(before + [s], steps)
  {
    UpdateKeepsKeys(before, before + [s], 0, s);
  }

  /** Once a termination was answered, no later full promotion asks a plugin again. */
  lemma {:induction false} TerminatesOnce(before: seq<Status>, after: seq<Status>, steps: Steps, plugins: Plugins,
      plugins': Plugins, calls: seq<Call>, calls': seq<Call>)
    requires Terminates(before, steps, plugins) && IsTermination(before, steps, plugins, after, calls, calls')
    requires plugins.reply(StepToTerminate(before, |before|).value) != BadPhase
    ensures !Terminates(after, steps, plugins')
  {
    var target := StepToTerminate(before, |before|).value;
    FinalKey(Status(target, steps[target].value, Run, Running, false), Terminate, plugins.reply(target));
    assert after[|before|].index == target && after[|before|].op == Terminate;
    SamePrefix(before, after, |before|);
  }

  lemma {:induction false} SamePrefix(before: seq<Status>, after: seq<Status>, n: nat)
    requires n <= |before| <= |after| && after[..|before|] == before
    ensures StepToTerminate(after, n) == StepToTerminate(before, n)
  {
    if n > 0 {
      SamePrefix(before, after, n - 1);
      assert after[..|before|][n - 1] == before[n - 1];
    }
  }

  // ---------------------------------------------------------------------------------------------
  // Normal reconciles

  /** A step is done once its run is disabled or over, or was cut short by a termination or an abort. */
  predicate StepCompleted(statuses: seq<Status>, index: nat) {
    exists i :: 0 <= i < |statuses| && statuses[i].index == index && statuses[i].op == Run &&
      (|| statuses[i].disabled
       || statuses[i].phase in {Failed, Successful}
       || (statuses[i].phase == Running && (HasKey(statuses, index, Terminate) || HasKey(statuses, index, Abort))))
  }

  /** The current step is a plugin step and the rollout is progressing. */
  predicate RunsStep(steps: Steps, index: Option<nat>, progressing: bool) {
    index.Some? && index.value < |steps| && steps[index.value].Some? && progressing
  }

  /** The run status the plugin starts from: its own, or a fresh one when there is none or it was disabled. */
  function RunBefore(start: seq<Status>, index: nat, name: string): Status {
    var ran := Lookup(start, index, name, Run);
    if ran == None || ran.value.disabled then Status(index, name, Run, Running, false) else ran.value
  }

  /** The plugin is asked to run: its run has not ended and it did not ask to be left alone for longer. */
  predicate AsksToRun(start: seq<Status>, steps: Steps, index: Option<nat>, progressing: bool, waiting: bool,
      plugins: Plugins)
  {
    && RunsStep(steps, index, progressing) && plugins.resolve(index.value) == Enabled
    && RunBefore(start, index.value, steps[index.value].value).phase !in {Successful, Failed} && !waiting
  }

  function RunCalls(start: seq<Status>, steps: Steps, index: Option<nat>, progressing: bool, waiting: bool,
      plugins: Plugins): seq<Call>
  {
    if AsksToRun(start, steps, index, progressing, waiting, plugins) then [Call(Run, index.value)] else []
  }

  predicate RunFails(start: seq<Status>, steps: Steps, index: Option<nat>, progressing: bool, waiting: bool,
      plugins: Plugins)
  {
    || (RunsStep(steps, index, progressing) && plugins.resolve(index.value) == Unresolved)
    || (AsksToRun(start, steps, index, progressing, waiting, plugins) && plugins.reply(index.value) == BadPhase)
  }

  /** An abort is asked for exactly when the plugin has just answered that it failed. */
  predicate RunAborts(start: seq<Status>, steps: Steps, index: Option<nat>, progressing: bool, waiting: bool,
      plugins: Plugins)
  {
    AsksToRun(start, steps, index, progressing, waiting, plugins) && plugins.reply(index.value) == Phase(Failed)
  }

  /** The run status a normal reconcile stores, if any. */
  function RunAfter(start: seq<Status>, steps: Steps, index: Option<nat>, progressing: bool, waiting: bool,
      plugins: Plugins): Option<Status>
  {
    if !RunsStep(steps, index, progressing) || plugins.resolve(index.value) == Unresolved then None
    else if plugins.resolve(index.value) == Disabled then
      Some(Status(index.value, steps[index.value].value, Run, Unset, true))
    else
      var s := RunBefore(start, index.value, steps[index.value].value);
      if s.phase in {Successful, Failed} then None
      else if waiting then Some(s)
      else match plugins.reply(index.value)
        case BadPhase => None
        case RpcError => Some(s.(phase := Error))
        case Phase(p) => Some(if p == Unset then s else s.(phase := p))
  }

  /** `after` is `before` with `s` stored under its key. */
  ghost predicate Stores(before: seq<Status>, after: seq<Status>, s: Status) {
    && (!HasKey(before, s.index, s.op) ==> after == before + [s])
    && (HasKey(before, s.index, s.op) ==> exists i: nat :: IsUpdate(before, after, i, s))
  }

  ghost predicate IsRunPass(start: seq<Status>, hasError: bool, statusAbort: bool, steps: Steps, index: Option<nat>,
      progressing: bool, waiting: bool, plugins: Plugins, after: seq<Status>)
  {
    var kept := if IsRetry(start, hasError, statusAbort, steps, index) then [] else start;
    match RunAfter(start, steps, index, progressing, waiting, plugins)
    case None => after == kept
    case Some(s) => Stores(kept, after, s)
  }

  /** A run that has ended is not repeated. */
  lemma {:induction false} FinishedRunStays(start: seq<Status>, steps: Steps, index: nat, progressing: bool,
      waiting: bool, plugins: Plugins)
    requires Valid(start, steps) && RunFinished(start, index) && index < |steps| && steps[index].Some?
    requires plugins.resolve(index) == Enabled
    ensures RunCalls(start, steps, Some(index), progressing, waiting, plugins) == []
    ensures RunAfter(start, steps, Some(index), progressing, waiting, plugins) == None
  {
    hide DistinctKeys, BelongTo;
    LookupByKey(start, steps, index, Run);
  }

  /** The run of a step has ended, and is not repeated. */
  predicate RunFinished(statuses: seq<Status>, index: nat) {
    exists i :: 0 <= i < |statuses| && statuses[i].index == index && statuses[i].op == Run
      && !statuses[i].disabled && statuses[i].phase in {Failed, Successful}
  }

  predicate IsRetry(statuses: seq<Status>, hasError: bool, statusAbort: bool, steps: Steps, index: Option<nat>) {
    && !statusAbort && index == Some(0) && steps != []
    && (steps[0].Some? ==> !hasError && StepCompleted(statuses, 0))
  }

  lemma {:induction false} ValidKeys(statuses: seq<Status>, steps: Steps)
    requires Valid(statuses, steps)
    ensures DistinctKeys(statuses)
  {
  }

  lemma {:induction false} NoneValid(steps: Steps)
    ensures Valid([], steps)
  {
  }

  lemma {:induction false} UpdateKeepsValid(before: seq<Status>, after: seq<Status>, steps: Steps, s: Status)
    requires Valid(before, steps) && Belongs(s, steps)
    requires Stores(before, after, s)
    ensures Valid(after, steps)
  {
    if HasKey(before, s.index, s.op) {
      var i: nat :| IsUpdate(before, after, i, s);
      UpdateKeepsKeys(before, after, i, s);
    } else {
      UpdateKeepsKeys(before, after, 0, s);
    }
  }
}
