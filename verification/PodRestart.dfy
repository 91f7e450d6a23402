/** Restarting the pods of a rollout: old pods are evicted while enough available ones remain. */
module PodRestart {
  import opened Prelude

  /** `ready` says the pod has been ready for long enough to count as available. */
  datatype Pod = Pod(name: string, created: int, ready: bool, deleting: bool)

  /** What the cluster answers to an eviction; `TooMany` is a disruption budget in the way. */
  datatype Eviction = Evicted | TooMany | EvictionFailed

  predicate IsAvailable(p: Pod) {
    p.ready && !p.deleting
  }

  predicate IsOld(p: Pod, restartAt: int) {
    p.created < restartAt
  }

  /** The available pods among the first `n` that are not in `gone`. */
  function Remaining(pods: seq<Pod>, gone: set<nat>, n: nat): nat
    requires n <= |pods|
  {
    if n == 0 then 0
    else Remaining(pods, gone, n - 1) + (if IsAvailable(pods[n - 1]) && n - 1 !in gone then 1 else 0)
  }

  /** The availability a restart never goes below: at least one pod may always be restarted, and a canary whose
      ReplicaSets add up to more than the rollout's replicas is held to the larger number. */
  function Floor(replicas: int, totalReplicas: int, maxUnavailable: int): int {
    Max(replicas, totalReplicas) - Max(maxUnavailable, 1)
  }

  predicate NeedsRestart(restartAt: Option<int>, restartedAt: Option<int>, now: int) {
    restartAt.Some? && restartedAt != restartAt && now > restartAt.value
  }

  class PodRestarter {
    /** The restart time recorded as done in the status. */
    var restartedAt: Option<int>

    /** The places, in the listing of this pass, of the pods that were evicted. */
    var evicted: set<nat>

    constructor (recorded: Option<int>)
      ensures restartedAt == recorded && evicted == {}
    {
      restartedAt, evicted := recorded, {};
    }

    method GetAvailablePodCount(pods: seq<Pod>) returns (available: int)
      ensures available == Remaining(pods, {}, |pods|)
    {
      available := 0;
      for i := 0 to |pods|
        invariant available == Remaining(pods, {}, i)
      {
        if IsAvailable(pods[i]) {
          available := available + 1;
        }
      }
    }

    /** One pass over the pods as listed (`None` when the listing failed). */
    method Reconcile(restartAt: Option<int>, listed: Option<seq<Pod>>, replicas: int, totalReplicas: int,
        maxUnavailable: int, now: int, evict: string -> Eviction)
      returns (restarted: int, ok: bool)
      requires evicted == {}
      modifies this
      ensures restarted == |evicted|
      ensures restartAt.Some? && restartAt.value < now && old(restartedAt) != restartAt && listed.Some? ==>
        var budget := Remaining(listed.value, {}, |listed.value|) - Floor(replicas, totalReplicas, maxUnavailable);
        IsPass(listed.value, restartAt.value, budget, evict, evicted, ok, old(restartedAt), restartedAt)
      ensures restartAt == None || old(restartedAt) == restartAt || restartAt.value >= now ==>
        ok && evicted == {} && restartedAt == old(restartedAt)
      ensures restartAt.Some? && restartAt.value < now && old(restartedAt) != restartAt && listed == None ==>
        !ok && evicted == {} && restartedAt == old(restartedAt)
    {
      restarted, ok := 0, true;
      if !NeedsRestart(restartAt, restartedAt, now) {
        return;
      }
      if listed == None {
        return 0, false;
      }
      var pods := listed.value;
      var available := GetAvailablePodCount(pods);
      var canRestart := available - Floor(replicas, totalReplicas, maxUnavailable);
      var needsRestart;
      needsRestart, restarted, ok := EvictOldPods(pods, restartAt.value, canRestart, evict);
      if ok && needsRestart == restarted {
        restartedAt := restartAt;
      }
    }

    /** The loop of a pass: evict while the budget lasts, and count the old pods. */
    method EvictOldPods(pods: seq<Pod>, restartAt: int, budget: int, evict: string -> Eviction)
      returns (needsRestart: int, restarted: int, ok: bool)
      requires evicted == {}
      modifies this`evicted
      ensures restarted == |evicted| <= Max(budget, 0)
      ensures forall k :: k in evicted ==> k < |pods| && MayEvict(pods[k], restartAt) && evict(pods[k].name).Evicted?
      ensures ok ==> |evicted| == Max(budget, 0) || Exhausted(pods, |pods|, restartAt, evict, evicted)
      ensures ok ==> (needsRestart == restarted <==> AllOldEvicted(pods, |pods|, restartAt, evicted))
    {
      var canRestart := budget;
      needsRestart, restarted, ok := 0, 0, true;
      for i := 0 to |pods|
        invariant ok && restarted == |evicted| <= needsRestart
        invariant restarted + canRestart == budget && (restarted > 0 ==> canRestart >= 0)
        invariant forall k :: k in evicted ==> k < i && MayEvict(pods[k], restartAt) && evict(pods[k].name).Evicted?
        invariant canRestart > 0 ==> Exhausted(pods, i, restartAt, evict, evicted)
        invariant needsRestart == restarted <==> AllOldEvicted(pods, i, restartAt, evicted)
      {
        if !IsOld(pods[i], restartAt) {
          continue;
        }
        needsRestart := needsRestart + 1;
        if canRestart <= 0 || pods[i].deleting {
          continue;
        }
        var answer := evict(pods[i].name);
        if answer.EvictionFailed? {
          return needsRestart, restarted, false;
        }
        if answer.Evicted? {
          evicted := evicted + {i};
          canRestart := canRestart - 1;
          restarted := restarted + 1;
        }
      }
    }
  }

  predicate MayEvict(p: Pod, restartAt: int) {
    IsOld(p, restartAt) && !p.deleting
  }

  /** Every pod among the first `n` that may be evicted has been, unless a disruption budget forbade it. */
  ghost predicate Exhausted(pods: seq<Pod>, n: nat, restartAt: int, evict: string -> Eviction, evicted: set<nat>)
    requires n <= |pods|
  {
    forall k: nat :: k < n && MayEvict(pods[k], restartAt) ==> k in evicted || evict(pods[k].name).TooMany?
  }

  /** The promise of a pass: only old pods that are not being deleted are evicted, never more than the budget, and a
      pass without error ends with the budget used up or nothing left to evict. The restart is recorded exactly when
      there was no error and every old pod was evicted in this very pass. */
  ghost predicate IsPass(pods: seq<Pod>, restartAt: int, budget: int, evict: string -> Eviction, evicted: set<nat>,
      ok: bool, recorded: Option<int>, recorded': Option<int>)
  {
    && |evicted| <= Max(budget, 0)
    && (forall k :: k in evicted ==> k < |pods| && MayEvict(pods[k], restartAt) && evict(pods[k].name).Evicted?)
    && (ok ==> |evicted| == Max(budget, 0) || Exhausted(pods, |pods|, restartAt, evict, evicted))
    && (recorded' == if ok && AllOldEvicted(pods, |pods|, restartAt, evicted) then Some(restartAt) else recorded)
  }

  ghost predicate AllOldEvicted(pods: seq<Pod>, n: nat, restartAt: int, evicted: set<nat>)
    requires n <= |pods|
  {
    forall k: nat :: k < n && IsOld(pods[k], restartAt) ==> k in evicted
  }

  // ---------------------------------------------------------------------------------------------
  // Main result

  /** Evicting pods lowers availability by at most one each. */
  lemma {:induction false} EvictionCost(pods: seq<Pod>, gone: set<nat>, n: nat)
    requires n <= |pods|
    ensures Remaining(pods, gone, n) + |GoneBelow(gone, n)| >= Remaining(pods, {}, n)
  {
    if n > 0 {
      EvictionCost(pods, gone, n - 1);
      if n - 1 in gone {
        assert GoneBelow(gone, n) == GoneBelow(gone, n - 1) + {n - 1};
      } else {
        assert GoneBelow(gone, n) == GoneBelow(gone, n - 1);
      }
    }
  }

  function GoneBelow(gone: set<nat>, n: nat): set<nat> {
    set k | k in gone && k < n
  }

  /** After a pass at least as many pods are available as before, or as the floor demands. */
  lemma {:induction false} AvailabilityKept(pods: seq<Pod>, restartAt: int, replicas: int, totalReplicas: int,
      maxUnavailable: int, evict: string -> Eviction, evicted: set<nat>, ok: bool, recorded: Option<int>,
      recorded': Option<int>)
    requires
      var budget := Remaining(pods, {}, |pods|) - Floor(replicas, totalReplicas, maxUnavailable);
      IsPass(pods, restartAt, budget, evict, evicted, ok, recorded, recorded')
    ensures Remaining(pods, evicted, |pods|) >=
      Min(Remaining(pods, {}, |pods|), Floor(replicas, totalReplicas, maxUnavailable))
  {
    EvictionCost(pods, evicted, |pods|);
    assert GoneBelow(evicted, |pods|) == evicted;
  }

  /** An old pod that is already being deleted keeps a restart from being recorded in this pass. */
  lemma {:induction false} DeletingPodDelaysRecord(pods: seq<Pod>, restartAt: int, budget: int,
      evict: string -> Eviction, evicted: set<nat>, ok: bool, recorded: Option<int>, recorded': Option<int>, k: nat)
    requires IsPass(pods, restartAt, budget, evict, evicted, ok, recorded, recorded')
    requires k < |pods| && IsOld(pods[k], restartAt) && (pods[k].deleting || evict(pods[k].name) != Evicted)
    ensures recorded' == recorded
  {
    assert k !in evicted;
  }

  /** The places of the pods that are ready, not being deleted, and not in `gone`. */
  function AvailableOf(pods: seq<Pod>, gone: set<nat>): set<nat> {
    set k: nat | k < |pods| && pods[k].ready && !pods[k].deleting && k !in gone
  }

  lemma {:induction false} AvailableTells(pods: seq<Pod>, gone: set<nat>, n: nat)
    requires n <= |pods|
    ensures Remaining(pods, gone, n) == |AvailableOf(pods[..n], gone)|
  {
    if n > 0 {
      AvailableTells(pods, gone, n - 1);
      var before, after := AvailableOf(pods[..n - 1], gone), AvailableOf(pods[..n], gone);
      if pods[n - 1].ready && !pods[n - 1].deleting && n - 1 !in gone {
        assert after == before + {n - 1};
      } else {
        assert after == before;
      }
    }
  }

  /** What a pass does, by the numbers: with at most `maxUnavailable` pods missing, but one in any case, from the
      replicas, or the larger number the ReplicaSets add up to, only pods older than the restart that are not being
      deleted are evicted; never so many that fewer stay available than that, or than were before; and as many as that
      allows in a pass without error, unless every such pod was evicted or is kept by a disruption budget. The restart
      is recorded exactly when a pass without error evicted every older pod. */
  lemma {:induction false} RestartOutcome(pods: seq<Pod>, restartAt: int, replicas: int, totalReplicas: int,
      maxUnavailable: int, evict: string -> Eviction, evicted: set<nat>, ok: bool, recorded: Option<int>,
      recorded': Option<int>)
    requires
      var budget := Remaining(pods, {}, |pods|) - Floor(replicas, totalReplicas, maxUnavailable);
      IsPass(pods, restartAt, budget, evict, evicted, ok, recorded, recorded')
    ensures
      var least := (if totalReplicas > replicas then totalReplicas else replicas)
        - (if maxUnavailable > 1 then maxUnavailable else 1);
      var before := |AvailableOf(pods, {})|;
      && |AvailableOf(pods, evicted)| >= (if before < least then before else least)
      && |evicted| <= (if before > least then before - least else 0)
      && (ok && |evicted| < before - least ==>
            forall k: nat :: k < |pods| && pods[k].created < restartAt && !pods[k].deleting && k !in evicted ==>
              evict(pods[k].name) == TooMany)
    ensures forall k :: k in evicted ==>
      k < |pods| && pods[k].created < restartAt && !pods[k].deleting && evict(pods[k].name) == Evicted
    ensures recorded' ==
      if ok && (forall k: nat :: k < |pods| && pods[k].created < restartAt ==> k in evicted) then Some(restartAt)
      else recorded
  {
    assert pods[..|pods|] == pods;
    AvailableTells(pods, {}, |pods|);
    AvailableTells(pods, evicted, |pods|);
    AvailabilityKept(pods, restartAt, replicas, totalReplicas, maxUnavailable, evict, evicted, ok, recorded, recorded');
  }
}
