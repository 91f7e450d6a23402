/** What a reconcile decides about pauses and aborts, gathered on the way and written to the status at its end. */
module PauseContexts {
  import opened Prelude
  import opened Lists

  datatype Reason = InconclusiveAnalysis | InconclusiveExperiment | CanaryPauseStep | BlueGreenPause

  datatype Condition = Condition(reason: Reason, startTime: int)

  /** The fields of the status that hold pauses and aborts. */
  datatype PauseStatus = PauseStatus(conditions: seq<Condition>, controllerPause: bool, abort: bool,
                                     abortedAt: Option<int>)

  const NO_PAUSE := PauseStatus([], false, false, None)

  predicate HasReason(conditions: seq<Condition>, reason: Reason) {
    exists i :: 0 <= i < |conditions| && conditions[i].reason == reason
  }

  /** The time at which the first condition with this reason began. */
  function StartOf(conditions: seq<Condition>, reason: Reason): (start: Option<int>)
    ensures start.Some? <==> HasReason(conditions, reason)
    ensures start.Some? ==> Condition(reason, start.value) in conditions
  {
    if conditions == [] then None
    else if conditions[0].reason == reason then Some(conditions[0].startTime)
    else
      assert forall i :: 1 <= i < |conditions| ==> conditions[1..][i - 1] == conditions[i];
      StartOf(conditions[1..], reason)
  }

  /** The conditions whose reason is not removed. */
  function Kept(conditions: seq<Condition>, removed: seq<Reason>): seq<Condition> {
    if conditions == [] then []
    else
      var n := |conditions| - 1;
      Kept(conditions[..n], removed) + (if conditions[n].reason in removed then [] else [conditions[n]])
  }

  /** New conditions for the reasons that have none yet. */
  function Added(stored: seq<Condition>, reasons: seq<Reason>, now: int): seq<Condition> {
    if reasons == [] then []
    else
      var n := |reasons| - 1;
      Added(stored, reasons[..n], now) + (if HasReason(stored, reasons[n]) then [] else [Condition(reasons[n], now)])
  }

  class PauseContext {
    /** The status as stored when the reconcile began. */
    const stored: PauseStatus
    var addPauseReasons: seq<Reason>
    var removePauseReasons: seq<Reason>
    var clearPauseConditions: bool
    var addAbort: bool
    var removeAbort: bool

    constructor (status: PauseStatus)
      ensures stored == status && addPauseReasons == removePauseReasons == []
      ensures !clearPauseConditions && !addAbort && !removeAbort
    {
      stored := status;
      addPauseReasons, removePauseReasons := [], [];
      clearPauseConditions, addAbort, removeAbort := false, false, false;
    }

    predicate HasAddPause()
      reads this
    {
      addPauseReasons != []
    }

    predicate IsAborted()
      reads this
    {
      !removeAbort && (addAbort || stored.abort)
    }

    method AddAbort()
      modifies this`addAbort
      ensures addAbort
    {
      addAbort := true;
    }

    method RemoveAbort()
      modifies this`removeAbort
      ensures removeAbort
    {
      removeAbort := true;
    }

    method AddPauseCondition(reason: Reason)
      modifies this`addPauseReasons
      ensures addPauseReasons == old(addPauseReasons) + [reason]
    {
      addPauseReasons := addPauseReasons + [reason];
    }

    method RemovePauseCondition(reason: Reason)
      modifies this`removePauseReasons
      ensures removePauseReasons == old(removePauseReasons) + [reason]
    {
      removePauseReasons := removePauseReasons + [reason];
    }

    method ClearPauseConditions()
      modifies this`clearPauseConditions
      ensures clearPauseConditions
    {
      clearPauseConditions := true;
    }

    /** Write the decisions into the status being prepared. */
    method CalculatePauseStatus(prepared: PauseStatus, now: int) returns (status: PauseStatus)
      ensures status == Written(stored, prepared, addPauseReasons, removePauseReasons, clearPauseConditions, addAbort,
                                removeAbort, now)
    {
      var aborted;
      status, aborted := CalculateAbortStatus(prepared, now);
      if aborted || clearPauseConditions {
        return;
      }
      status := CalculatePauseConditions(status, now);
    }

    method CalculateAbortStatus(prepared: PauseStatus, now: int) returns (status: PauseStatus, aborted: bool)
      ensures aborted == (addAbort || (!removeAbort && stored.abort))
      ensures status == prepared.(abort := aborted, abortedAt := AbortTime(stored, aborted, now))
    {
      var newAbortedAt := stored.abortedAt;
      if newAbortedAt == None {
        newAbortedAt := Some(now);
      }
      if addAbort || (!removeAbort && stored.abort) {
        return prepared.(abort := true, abortedAt := newAbortedAt), true;
      }
      return prepared.(abort := false, abortedAt := None), false;
    }

    method CalculatePauseConditions(prepared: PauseStatus, now: int) returns (status: PauseStatus)
      ensures
        var added := Added(stored.conditions, addPauseReasons, now);
        var conditions := Kept(stored.conditions, removePauseReasons) + added;
        status == if conditions == [] then prepared
                  else prepared.(conditions := conditions, controllerPause := stored.controllerPause || added != [])
    {
      var conditions := [];
      var existing := {};
      for i := 0 to |stored.conditions|
        invariant conditions == Kept(stored.conditions[..i], removePauseReasons)
        invariant forall r :: r in existing <==> exists k :: 0 <= k < i && stored.conditions[k].reason == r
      {
        var cond := stored.conditions[i];
        assert stored.conditions[..i + 1][..i] == stored.conditions[..i];
        if cond.reason !in removePauseReasons {
          conditions := conditions + [cond];
        }
        existing := existing + {cond.reason};
      }
      assert stored.conditions[..|stored.conditions|] == stored.conditions;
      ghost var kept := conditions;
      var controllerPause := stored.controllerPause;
      for i := 0 to |addPauseReasons|
        invariant conditions == kept + Added(stored.conditions, addPauseReasons[..i], now)
        invariant controllerPause ==
          (stored.controllerPause || Added(stored.conditions, addPauseReasons[..i], now) != [])
      {
        var reason := addPauseReasons[i];
        assert addPauseReasons[..i + 1][..i] == addPauseReasons[..i];
        if reason !in existing {
          conditions := conditions + [Condition(reason, now)];
          controllerPause := true;
        }
      }
      assert addPauseReasons[..|addPauseReasons|] == addPauseReasons;
      if conditions == [] {
        return prepared;
      }
      return prepared.(conditions := conditions, controllerPause := controllerPause);
    }
  }

  /** An abort keeps the time at which it was first recorded. */
  function AbortTime(stored: PauseStatus, aborted: bool, now: int): Option<int> {
    if !aborted then None else if stored.abortedAt.Some? then stored.abortedAt else Some(now)
  }

  function Written(stored: PauseStatus, prepared: PauseStatus, add: seq<Reason>, remove: seq<Reason>, clear: bool,
      addAbort: bool, removeAbort: bool, now: int): PauseStatus
  {
    var aborted := addAbort || (!removeAbort && stored.abort);
    var status := prepared.(abort := aborted, abortedAt := AbortTime(stored, aborted, now));
    var added := Added(stored.conditions, add, now);
    var conditions := Kept(stored.conditions, remove) + added;
    if aborted || clear || conditions == [] then status
    else status.(conditions := conditions, controllerPause := stored.controllerPause || added != [])
  }

  // ---------------------------------------------------------------------------------------------
  // Properties

  lemma {:induction false} KeptMembers(conditions: seq<Condition>, removed: seq<Reason>)
    ensures forall c :: c in Kept(conditions, removed) <==> c in conditions && c.reason !in removed
  {
    if conditions != [] {
      var n := |conditions| - 1;
      KeptMembers(conditions[..n], removed);
      assert conditions == conditions[..n] + [conditions[n]];
    }
  }

  lemma {:induction false} NothingRemoved(conditions: seq<Condition>)
    ensures Kept(conditions, []) == conditions
  {
    if conditions != [] {
      NothingRemoved(conditions[..|conditions| - 1]);
    }
  }

  lemma {:induction false} AddedMembers(stored: seq<Condition>, reasons: seq<Reason>, now: int)
    ensures forall c :: c in Added(stored, reasons, now) <==>
      c.startTime == now && c.reason in reasons && !HasReason(stored, c.reason)
  {
    hide HasReason;
    if reasons != [] {
      var n := |reasons| - 1;
      AddedMembers(stored, reasons[..n], now);
      assert reasons == reasons[..n] + [reasons[n]];
    }
  }

  /** What the stages of a reconcile are told about an abort agrees with what the status gets, unless an abort was
      both asked for and removed: then, and only then, the stages see none but the status records one. */
  lemma {:induction false} AbortAgreesIff(c: PauseContext, prepared: PauseStatus, now: int)
    ensures
      var status := Written(c.stored, prepared, c.addPauseReasons, c.removePauseReasons, c.clearPauseConditions,
                            c.addAbort, c.removeAbort, now);
      (c.IsAborted() == status.abort) <==> !(c.addAbort && c.removeAbort)
  {
  }

  /** A pass that finds a full promotion asked for and the progress deadline exceeded: the promotion removes the abort,
      so the deadline finds none and adds one, and the status records it. */
  method PromotePastDeadline(status: PauseStatus, now: int) returns (told: bool, after: PauseStatus)
    ensures !told && after.abort && after.conditions == []
  {
    var ctx := new PauseContext(status);
    ctx.ClearPauseConditions();
    ctx.RemoveAbort();
    told := ctx.IsAborted();
    if !told {
      ctx.AddAbort();
    }
    told := ctx.IsAborted();
    after := ctx.CalculatePauseStatus(NO_PAUSE, now);
  }

  /** Repeating a reconcile that changes nothing writes the same abort: the recorded time never moves. */
  lemma {:induction false} AbortTimeIsStable(stored: PauseStatus, prepared: PauseStatus, prepared': PauseStatus,
      addAbort: bool, addAbort': bool, now: int, now': int)
    requires Written(stored, prepared, [], [], false, addAbort, false, now).abort
    ensures
      var status := Written(stored, prepared, [], [], false, addAbort, false, now);
      var status' := Written(status, prepared', [], [], false, addAbort', false, now');
      status'.abort && status'.abortedAt == status.abortedAt
  {
  }

  function Reasons(conditions: seq<Condition>): (reasons: seq<Reason>)
    ensures |reasons| == |conditions| && forall i :: 0 <= i < |conditions| ==> reasons[i] == conditions[i].reason
  {
    seq(|conditions|, i requires 0 <= i < |conditions| => conditions[i].reason)
  }

  lemma {:induction false} KeptReasons(conditions: seq<Condition>, removed: seq<Reason>)
    ensures forall r :: r in Reasons(Kept(conditions, removed)) <==> r in Reasons(conditions) && r !in removed
    ensures Distinct(Reasons(conditions)) ==> Distinct(Reasons(Kept(conditions, removed)))
  {
    if conditions != [] {
      var n := |conditions| - 1;
      KeptReasons(conditions[..n], removed);
      assert Reasons(conditions) == Reasons(conditions[..n]) + [conditions[n].reason];
      if conditions[n].reason !in removed {
        assert Reasons(Kept(conditions, removed)) == Reasons(Kept(conditions[..n], removed)) + [conditions[n].reason];
      } else {
        assert Kept(conditions, removed) == Kept(conditions[..n], removed);
      }
    }
  }

  /** The reasons to add for which there is no condition yet. */
  function Missing(stored: seq<Condition>, reasons: seq<Reason>): seq<Reason> {
    if reasons == [] then []
    else
      var n := |reasons| - 1;
      Missing(stored, reasons[..n]) + (if HasReason(stored, reasons[n]) then [] else [reasons[n]])
  }

  lemma {:induction false} AddedReasons(stored: seq<Condition>, reasons: seq<Reason>, now: int)
    ensures Reasons(Added(stored, reasons, now)) == Missing(stored, reasons)
    ensures forall r :: r in Missing(stored, reasons) ==> !HasReason(stored, r)
  {
    if reasons != [] {
      var n := |reasons| - 1;
      AddedReasons(stored, reasons[..n], now);
      if HasReason(stored, reasons[n]) {
        assert Added(stored, reasons, now) == Added(stored, reasons[..n], now);
        assert Missing(stored, reasons) == Missing(stored, reasons[..n]);
      } else {
        assert Reasons(Added(stored, reasons, now)) == Reasons(Added(stored, reasons[..n], now)) + [reasons[n]];
      }
    }
  }

  /** Conditions with distinct reasons stay so exactly when no missing reason is asked for twice. */
  lemma {:induction false} ReasonsDistinctIff(stored: seq<Condition>, add: seq<Reason>, remove: seq<Reason>, now: int)
    requires Distinct(Reasons(stored))
    ensures Distinct(Reasons(Kept(stored, remove) + Added(stored, add, now))) <==> Distinct(Missing(stored, add))
  {
    var kept, added := Kept(stored, remove), Added(stored, add, now);
    KeptReasons(stored, remove);
    AddedReasons(stored, add, now);
    var all := Reasons(kept + added);
    assert all == Reasons(kept) + Reasons(added);
    forall r | r in Reasons(kept)
      ensures HasReason(stored, r)
    {
      var i :| 0 <= i < |stored| && Reasons(stored)[i] == r;
      assert stored[i].reason == r;
    }
    DistinctConcat(Reasons(kept), Reasons(added));
  }

  /** A reason that is removed and asked for in the same reconcile ends up removed. */
  lemma {:induction false} RemovalWins(stored: seq<Condition>, add: seq<Reason>, remove: seq<Reason>, now: int,
      reason: Reason)
    requires HasReason(stored, reason) && reason in remove
    ensures reason !in Reasons(Kept(stored, remove) + Added(stored, add, now))
  {
    KeptReasons(stored, remove);
    AddedReasons(stored, add, now);
    var kept, added := Kept(stored, remove), Added(stored, add, now);
    assert Reasons(kept + added) == Reasons(kept) + Reasons(added);
  }

  lemma {:induction false} AddedTwice(stored: seq<Condition>, reason: Reason, now: int)
    requires !HasReason(stored, reason)
    ensures Added(stored, [reason, reason], now) == [Condition(reason, now), Condition(reason, now)]
  {
    assert [reason, reason][..1] == [reason] && [reason][..0] == [];
    assert Added(stored, [], now) == [];
    assert Added(stored, [reason], now) == [Condition(reason, now)];
  }

  /** A pass in which the analysis of the step and the one in the background are both inconclusive: unless there was
      such a pause before, the rollout is paused twice for the one reason. */
  method PauseForTwoAnalyses(status: PauseStatus, now: int) returns (after: PauseStatus)
    requires !status.abort && !HasReason(status.conditions, InconclusiveAnalysis)
    ensures after.conditions ==
      status.conditions + [Condition(InconclusiveAnalysis, now), Condition(InconclusiveAnalysis, now)]
    ensures !Distinct(Reasons(after.conditions))
  {
    var ctx := new PauseContext(status);
    ctx.AddPauseCondition(InconclusiveAnalysis);
    ctx.AddPauseCondition(InconclusiveAnalysis);
    after := ctx.CalculatePauseStatus(NO_PAUSE, now);
    assert ctx.addPauseReasons == [InconclusiveAnalysis, InconclusiveAnalysis];
    AddedTwice(status.conditions, InconclusiveAnalysis, now);
    NothingRemoved(status.conditions);
    var n := |status.conditions|;
    assert Reasons(after.conditions)[n] == Reasons(after.conditions)[n + 1];
  }
}
