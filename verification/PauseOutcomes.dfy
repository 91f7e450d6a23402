/** For how long a rollout has been paused, told from the list of its pauses. */
module PauseOutcomes {
  import opened Prelude
  import opened PauseContexts

  /** The condition at `k` is the first with this reason. */
  predicate IsFirst(conditions: seq<Condition>, reason: Reason, k: nat) {
    && k < |conditions| && conditions[k].reason == reason
    && forall j :: 0 <= j < k ==> conditions[j].reason != reason
  }

  predicate NotPaused(conditions: seq<Condition>, reason: Reason) {
    forall k :: 0 <= k < |conditions| ==> conditions[k].reason != reason
  }

  /** The first pause with this reason began more than `duration` ago. */
  predicate PausedFor(conditions: seq<Condition>, reason: Reason, duration: int, now: int) {
    exists k :: 0 <= k < |conditions| && IsFirst(conditions, reason, k) && conditions[k].startTime + duration < now
  }

  lemma {:induction false} PauseTells(conditions: seq<Condition>, reason: Reason)
    ensures StartOf(conditions, reason) == None <==> NotPaused(conditions, reason)
    ensures HasReason(conditions, reason) <==> !NotPaused(conditions, reason)
    ensures forall k: nat :: IsFirst(conditions, reason, k) ==>
      StartOf(conditions, reason) == Some(conditions[k].startTime)
    ensures StartOf(conditions, reason).Some? ==> exists k: nat :: IsFirst(conditions, reason, k)
  {
    if conditions != [] && conditions[0].reason != reason {
      var rest := conditions[1..];
      PauseTells(rest, reason);
      assert forall k :: 0 < k < |conditions| ==> conditions[k] == rest[k - 1];
      forall k: nat | IsFirst(conditions, reason, k)
        ensures StartOf(conditions, reason) == Some(conditions[k].startTime)
      {
        assert IsFirst(rest, reason, k - 1);
      }
      if k: nat :| IsFirst(rest, reason, k) {
        assert IsFirst(conditions, reason, k + 1);
      }
    } else if conditions != [] {
      assert IsFirst(conditions, reason, 0);
    }
  }

  lemma {:induction false} PausedForTells(conditions: seq<Condition>, reason: Reason, duration: int, now: int)
    ensures PausedFor(conditions, reason, duration, now) <==>
      var start := StartOf(conditions, reason);
      start.Some? && now > start.value + duration
  {
    hide StartOf;
    PauseTells(conditions, reason);
    if k: nat :| IsFirst(conditions, reason, k) {
      assert IsFirst(conditions, reason, k);
    }
  }
}
