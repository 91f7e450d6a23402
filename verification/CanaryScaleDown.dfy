/** Scaling down the old ReplicaSets of a canary rollout without traffic routing. */
module CanaryScaleDown {
  import opened Prelude
  import opened Sorting
  import opened ReplicaSets

  /** Whether the cluster accepts a request to bring the named ReplicaSet to a size. */
  type Api = (string, int) -> bool

  /** The list after a pass over it, and whether nothing went wrong on the way. */
  datatype Scaled = Scaled(rss: seq<ReplicaSet>, ok: bool)

  function Prepend(r: ReplicaSet, s: Scaled): Scaled {
    Scaled([r] + s.rss, s.ok)
  }

  /** The list after unhealthy replicas were removed, front to back. */
  function Cleanup(rss: seq<ReplicaSet>, api: Api): Scaled {
    if rss == [] then Scaled([], true)
    else if rss[0].replicas == 0 || rss[0].replicas == rss[0].available then
      Prepend(rss[0], Cleanup(rss[1..], api))
    else if rss[0].available > rss[0].replicas || !api(rss[0].name, rss[0].available) then
      Scaled(rss, false)
    else
      Prepend(rss[0].(replicas := rss[0].available), Cleanup(rss[1..], api))
  }

  /** The size the drain asks for. */
  function Drained(r: ReplicaSet, budget: int): nat
    requires budget > 0
  {
    if r.replicas > budget then r.replicas - budget else 0
  }

  /** The list after the drain, front to back. */
  function Drain(rss: seq<ReplicaSet>, budget: int, api: Api): Scaled {
    if rss == [] || budget <= 0 then Scaled(rss, true)
    else if rss[0].replicas == 0 then
      Prepend(rss[0], Drain(rss[1..], budget, api))
    else if !api(rss[0].name, Drained(rss[0], budget)) then
      Scaled(rss, false)
    else
      var n := Drained(rss[0], budget);
      Prepend(rss[0].(replicas := n), Drain(rss[1..], budget - (rss[0].replicas - n), api))
  }

  /** How a call ends. */
  datatype Outcome = CleanupFailed | NoBudget | ScaleFailed | Done

  class CanaryScaler {
    /** The old ReplicaSets, neither new nor stable. */
    var rss: seq<ReplicaSet>

    constructor (old_: seq<ReplicaSet>)
      ensures rss == old_
    {
      rss := old_;
    }

    method CleanupUnhealthyReplicas(api: Api) returns (ghost byAge: seq<ReplicaSet>, ok: bool, total: int)
      modifies this
      ensures IsSortOf(byAge, old(rss), Older)
      ensures Scaled(rss, ok) == Cleanup(byAge, api)
      ensures total == SumBy(old(rss), Replicas) - SumBy(rss, Replicas) || (!ok && total == 0)
      ensures ok ==> total == SumBy(old(rss), Replicas) - SumBy(rss, Replicas)
    {
      hide Cleanup, CleanedSoFar, IsSortOf, IsOrder, SumBy;
      Orders();
      rss := Sort(rss, Older);
      byAge, ok, total := rss, true, 0;
      SumBySorted(byAge, old(rss), Older, Replicas);
      ghost var done, rest := [], byAge;
      CleanedStart(byAge, api);
      for i := 0 to |rss|
        invariant ok && |done| == i && |rss| == |byAge| && rss == done + rest
        invariant CleanedSoFar(byAge, done, rest, api, total)
      {
        var r := rss[i];
        assert r == rest[0];
        if r.replicas != 0 && r.replicas != r.available {
          if r.available > r.replicas || !api(r.name, r.available) {
            CleanedStop(byAge, done, rest, api, total);
            return byAge, false, if r.available > r.replicas then 0 else total;
          }
          CleanedFix(byAge, done, rest, api, total);
          total := total + (r.replicas - r.available);
          UpdateSplit(done, rest, r.(replicas := r.available));
          rss := rss[i := r.(replicas := r.available)];
        } else {
          CleanedKeep(byAge, done, rest, api, total);
        }
        done, rest := done + [rss[i]], rest[1..];
      }
      CleanedEnd(byAge, done, rest, api, total);
      assert rss == done;
    }

    /** Remove unhealthy replicas, then drain from the newest revision on while more pods are available than
        `minAvailable`. `elsewhere` counts the available pods of the ReplicaSets outside the list. */
    method ScaleDownOldReplicaSetsForCanary(elsewhere: nat, minAvailable: int, api: Api)
      returns (ghost byAge: seq<ReplicaSet>, ghost byRevision: seq<ReplicaSet>, total: int, outcome: Outcome)
      modifies this
      ensures IsScaleDown(old(rss), byAge, byRevision, rss, elsewhere, minAvailable, api, outcome)
      ensures total == SumBy(old(rss), Replicas) - SumBy(rss, Replicas)
        || (outcome in {CleanupFailed, NoBudget} && total == 0)
      ensures outcome == NoBudget ==> total == 0
      ensures outcome in {ScaleFailed, Done} ==> total == SumBy(old(rss), Replicas) - SumBy(rss, Replicas)
    {
      hide Cleanup, Drain, IsSortOf, IsOrder, SumBy;
      var ok;
      byAge, ok, total := CleanupUnhealthyReplicas(api);
      byRevision := [];
      if !ok {
        return byAge, byRevision, total, CleanupFailed;
      }
      var availablePodCount := elsewhere + SumBy(rss, Available);
      var maxScaleDown := availablePodCount - minAvailable;
      if maxScaleDown <= 0 {
        return byAge, byRevision, 0, NoBudget;
      }
      Orders();
      ghost var cleaned := rss;
      rss := Sort(rss, Newer);
      byRevision := rss;
      SumBySorted(byRevision, cleaned, Newer, Replicas);
      var drained;
      drained, ok := DrainOldReplicaSets(maxScaleDown, api);
      total := total + drained;
      outcome := if ok then Done else ScaleFailed;
    }

    /** The loop over the old ReplicaSets: each is scaled down as far as the rest of the budget allows. */
    method DrainOldReplicaSets(budget: int, api: Api) returns (total: int, ok: bool)
      modifies this
      ensures Scaled(rss, ok) == Drain(old(rss), budget, api)
      ensures total == SumBy(old(rss), Replicas) - SumBy(rss, Replicas)
    {
      hide Drain, DrainedSoFar, SumBy;
      var maxScaleDown := budget;
      total := 0;
      ghost var all, done, rest := rss, [], rss;
      DrainedStart(all, budget, api);
      for i := 0 to |rss|
        invariant |done| == i && |rss| == |all| && rss == done + rest
        invariant DrainedSoFar(all, budget, done, rest, maxScaleDown, api, total)
      {
        if maxScaleDown <= 0 {
          DrainedEnd(all, budget, done, rest, maxScaleDown, api, total);
          return total, true;
        }
        var targetRS := rss[i];
        assert targetRS == rest[0];
        if targetRS.replicas == 0 {
          DrainedKeep(all, budget, done, rest, maxScaleDown, api, total);
          done, rest := done + [targetRS], rest[1..];
          continue;
        }
        var desiredReplicaCount := Drained(targetRS, maxScaleDown);
        if !api(targetRS.name, desiredReplicaCount) {
          DrainedStop(all, budget, done, rest, maxScaleDown, api, total);
          return total, false;
        }
        DrainedScale(all, budget, done, rest, maxScaleDown, api, total);
        UpdateSplit(done, rest, targetRS.(replicas := desiredReplicaCount));
        rss := rss[i := targetRS.(replicas := desiredReplicaCount)];
        maxScaleDown := maxScaleDown - (targetRS.replicas - desiredReplicaCount);
        total := total + (targetRS.replicas - desiredReplicaCount);
        done, rest := done + [rss[i]], rest[1..];
      }
      DrainedEnd(all, budget, done, rest, maxScaleDown, api, total);
      ok := true;
    }
  }

  ghost predicate IsScaleDown(before: seq<ReplicaSet>, byAge: seq<ReplicaSet>, byRevision: seq<ReplicaSet>,
      after: seq<ReplicaSet>, elsewhere: nat, minAvailable: int, api: Api, outcome: Outcome)
  {
    var Scaled(cleaned, ok) := Cleanup(byAge, api);
    var budget := elsewhere + SumBy(cleaned, Available) - minAvailable;
    && IsSortOf(byAge, before, Older)
    && (ok <==> outcome != CleanupFailed)
    && (outcome in {CleanupFailed, NoBudget} ==> after == cleaned)
    && (ok ==> (outcome == NoBudget <==> budget <= 0))
    && (outcome in {ScaleFailed, Done} ==>
          && IsSortOf(byRevision, cleaned, Newer)
          && Scaled(after, outcome == Done) == Drain(byRevision, budget, api))
  }

  // ---------------------------------------------------------------------------------------------
  // The two loops

  /** The cleanup has dealt with `done`; `rest` is still to come. */
  ghost predicate CleanedSoFar(all: seq<ReplicaSet>, done: seq<ReplicaSet>, rest: seq<ReplicaSet>, api: Api,
      total: int)
  {
    && Cleanup(all, api).rss == done + Cleanup(rest, api).rss
    && Cleanup(all, api).ok == Cleanup(rest, api).ok
    && total == SumBy(all, Replicas) - SumBy(done, Replicas) - SumBy(rest, Replicas)
  }

  lemma {:induction false} CleanedStart(all: seq<ReplicaSet>, api: Api)
    ensures CleanedSoFar(all, [], all, api, 0)
  {
    hide Cleanup;
    assert [] + Cleanup(all, api).rss == Cleanup(all, api).rss;
  }

  lemma {:induction false} CleanedKeep(all: seq<ReplicaSet>, done: seq<ReplicaSet>, rest: seq<ReplicaSet>, api: Api,
      total: int)
    requires CleanedSoFar(all, done, rest, api, total) && rest != []
    requires rest[0].replicas == 0 || rest[0].replicas == rest[0].available
    ensures CleanedSoFar(all, done + [rest[0]], rest[1..], api, total)
  {
    SumByAppend(done, [rest[0]], Replicas);
    assert done + Cleanup(rest, api).rss == done + [rest[0]] + Cleanup(rest[1..], api).rss;
  }

  lemma {:induction false} CleanedFix(all: seq<ReplicaSet>, done: seq<ReplicaSet>, rest: seq<ReplicaSet>, api: Api,
      total: int)
    requires CleanedSoFar(all, done, rest, api, total) && rest != []
    requires rest[0].available < rest[0].replicas && api(rest[0].name, rest[0].available)
    ensures CleanedSoFar(all, done + [rest[0].(replicas := rest[0].available)], rest[1..], api,
                         total + (rest[0].replicas - rest[0].available))
  {
    var r := rest[0].(replicas := rest[0].available);
    SumByAppend(done, [r], Replicas);
    assert done + Cleanup(rest, api).rss == done + [r] + Cleanup(rest[1..], api).rss;
  }

  lemma {:induction false} CleanedStop(all: seq<ReplicaSet>, done: seq<ReplicaSet>, rest: seq<ReplicaSet>, api: Api,
      total: int)
    requires CleanedSoFar(all, done, rest, api, total) && rest != []
    requires rest[0].replicas != 0 && rest[0].replicas != rest[0].available
    requires rest[0].available > rest[0].replicas || !api(rest[0].name, rest[0].available)
    ensures Cleanup(all, api) == Scaled(done + rest, false)
    ensures total == SumBy(all, Replicas) - SumBy(done + rest, Replicas)
  {
    SumByAppend(done, rest, Replicas);
  }

  lemma {:induction false} CleanedEnd(all: seq<ReplicaSet>, done: seq<ReplicaSet>, rest: seq<ReplicaSet>, api: Api,
      total: int)
    requires CleanedSoFar(all, done, rest, api, total) && rest == []
    ensures Cleanup(all, api) == Scaled(done, true)
    ensures total == SumBy(all, Replicas) - SumBy(done, Replicas)
  {
    hide Cleanup;
    CleanupNothing(api);
  }

  lemma {:induction false} CleanupNothing(api: Api)
    ensures Cleanup([], api) == Scaled([], true)
  {
  }

  /** The drain has dealt with `done` and still has `left` of its budget for `rest`. */
  ghost predicate DrainedSoFar(all: seq<ReplicaSet>, budget: int, done: seq<ReplicaSet>, rest: seq<ReplicaSet>,
      left: int, api: Api, total: int)
  {
    && Drain(all, budget, api).rss == done + Drain(rest, left, api).rss
    && Drain(all, budget, api).ok == Drain(rest, left, api).ok
    && total == SumBy(all, Replicas) - SumBy(done, Replicas) - SumBy(rest, Replicas)
  }

  lemma {:induction false} DrainedStart(all: seq<ReplicaSet>, budget: int, api: Api)
    ensures DrainedSoFar(all, budget, [], all, budget, api, 0)
  {
    hide Drain;
    assert [] + Drain(all, budget, api).rss == Drain(all, budget, api).rss;
  }

  lemma {:induction false} DrainedKeep(all: seq<ReplicaSet>, budget: int, done: seq<ReplicaSet>,
      rest: seq<ReplicaSet>, left: int, api: Api, total: int)
    requires DrainedSoFar(all, budget, done, rest, left, api, total) && left > 0
    requires rest != [] && rest[0].replicas == 0
    ensures DrainedSoFar(all, budget, done + [rest[0]], rest[1..], left, api, total)
  {
    SumByAppend(done, [rest[0]], Replicas);
    assert done + Drain(rest, left, api).rss == done + [rest[0]] + Drain(rest[1..], left, api).rss;
  }

  lemma {:induction false} DrainedScale(all: seq<ReplicaSet>, budget: int, done: seq<ReplicaSet>,
      rest: seq<ReplicaSet>, left: int, api: Api, total: int)
    requires DrainedSoFar(all, budget, done, rest, left, api, total) && left > 0
    requires rest != [] && rest[0].replicas != 0 && api(rest[0].name, Drained(rest[0], left))
    ensures
      var n := Drained(rest[0], left);
      DrainedSoFar(all, budget, done + [rest[0].(replicas := n)], rest[1..], left - (rest[0].replicas - n), api,
                   total + (rest[0].replicas - n))
  {
    var n := Drained(rest[0], left);
    var r := rest[0].(replicas := n);
    SumByAppend(done, [r], Replicas);
    assert done + Drain(rest, left, api).rss == done + [r] + Drain(rest[1..], left - (rest[0].replicas - n), api).rss;
  }

  lemma {:induction false} DrainedStop(all: seq<ReplicaSet>, budget: int, done: seq<ReplicaSet>,
      rest: seq<ReplicaSet>, left: int, api: Api, total: int)
    requires DrainedSoFar(all, budget, done, rest, left, api, total) && left > 0
    requires rest != [] && rest[0].replicas != 0 && !api(rest[0].name, Drained(rest[0], left))
    ensures Drain(all, budget, api) == Scaled(done + rest, false)
    ensures total == SumBy(all, Replicas) - SumBy(done + rest, Replicas)
  {
    SumByAppend(done, rest, Replicas);
  }

  lemma {:induction false} DrainedEnd(all: seq<ReplicaSet>, budget: int, done: seq<ReplicaSet>, rest: seq<ReplicaSet>,
      left: int, api: Api, total: int)
    requires DrainedSoFar(all, budget, done, rest, left, api, total) && (left <= 0 || rest == [])
    ensures Drain(all, budget, api) == Scaled(done + rest, true)
    ensures total == SumBy(all, Replicas) - SumBy(done + rest, Replicas)
  {
    SumByAppend(done, rest, Replicas);
  }

  // ---------------------------------------------------------------------------------------------
  // The cleanup

  ghost predicate Active(rss: seq<ReplicaSet>) {
    forall i :: 0 <= i < |rss| ==> rss[i].replicas > 0
  }

  /** Removing unhealthy replicas never costs an available pod; if it succeeds, every replica left is available. */
  lemma {:induction false} CleanupKeepsAvailability(rss: seq<ReplicaSet>, api: Api)
    requires Active(rss)
    ensures
      var Scaled(cleaned, ok) := Cleanup(rss, api);
      && |cleaned| == |rss|
      && SumBy(cleaned, Standing) == SumBy(rss, Standing)
      && (ok ==> SumBy(cleaned, Available) == SumBy(cleaned, Replicas) == SumBy(rss, Standing))
      && (ok ==> forall i :: 0 <= i < |cleaned| ==> cleaned[i].replicas == cleaned[i].available)
  {
    if rss != [] {
      CleanupKeepsAvailability(rss[1..], api);
    }
  }

  // ---------------------------------------------------------------------------------------------
  // The drain

  /** The drain never removes more than the budget; when no request fails it removes exactly the budget, or
      everything there is. */
  lemma {:induction false} DrainIsExact(rss: seq<ReplicaSet>, budget: int, api: Api)
    requires budget >= 0
    ensures
      var Scaled(after, ok) := Drain(rss, budget, api);
      var removed := SumBy(rss, Replicas) - SumBy(after, Replicas);
      && 0 <= removed <= Min(SumBy(rss, Replicas), budget)
      && (ok ==> removed == Min(SumBy(rss, Replicas), budget))
  {
    SumNonNegative(rss);
    if rss != [] && budget > 0 {
      SumNonNegative(rss[1..]);
      if rss[0].replicas == 0 {
        DrainIsExact(rss[1..], budget, api);
      } else {
        DrainIsExact(rss[1..], budget - (rss[0].replicas - Drained(rss[0], budget)), api);
      }
    }
  }

  lemma {:induction false} SumNonNegative(rss: seq<ReplicaSet>)
    ensures SumBy(rss, Replicas) >= 0
  {
    if rss != [] {
      SumNonNegative(rss[1..]);
    }
  }

  /** Everything before place `k` is drained completely, the ReplicaSet at `k` at most in part, and nothing behind
      it is touched. */
  ghost predicate DrainedUpTo(k: nat, before: seq<ReplicaSet>, after: seq<ReplicaSet>) {
    && |after| == |before| && k <= |before|
    && (forall i :: 0 <= i < k ==> after[i] == before[i].(replicas := 0))
    && (k < |before| ==>
          after[k] == before[k].(replicas := after[k].replicas) && after[k].replicas <= before[k].replicas)
    && (forall i :: k < i < |before| ==> after[i] == before[i])
  }

  lemma {:induction false} DrainIsPrefix(rss: seq<ReplicaSet>, budget: int, api: Api) returns (k: nat)
    ensures DrainedUpTo(k, rss, Drain(rss, budget, api).rss)
  {
    hide DrainedUpTo;
    k := 0;
    if rss == [] || budget <= 0 {
      PrefixHere(rss, rss);
    } else {
      var n := if rss[0].replicas == 0 then 0 else Drained(rss[0], budget);
      if rss[0].replicas != 0 && !api(rss[0].name, n) {
        PrefixHere(rss, rss);
      } else {
        var left := budget - (rss[0].replicas - n);
        var rest := Drain(rss[1..], left, api).rss;
        k := DrainIsPrefix(rss[1..], left, api);
        assert Drain(rss, budget, api).rss == [rss[0].(replicas := n)] + rest;
        if n > 0 {
          assert rest == rss[1..];
          k := 0;
          PrefixHere(rss, [rss[0].(replicas := n)] + rest);
        } else {
          PrefixLater(rss, rest, k);
          k := k + 1;
        }
      }
    }
  }

  lemma {:induction false} PrefixHere(rss: seq<ReplicaSet>, after: seq<ReplicaSet>)
    requires |after| == |rss| && (rss != [] ==> after[1..] == rss[1..])
    requires rss != [] ==> after[0] == rss[0].(replicas := after[0].replicas) && after[0].replicas <= rss[0].replicas
    ensures DrainedUpTo(0, rss, after)
  {
    forall i | 0 < i < |rss|
      ensures after[i] == rss[i]
    {
      assert after[1..][i - 1] == rss[1..][i - 1];
    }
  }

  lemma {:induction false} PrefixLater(rss: seq<ReplicaSet>, rest: seq<ReplicaSet>, k: nat)
    requires rss != [] && DrainedUpTo(k, rss[1..], rest)
    ensures DrainedUpTo(k + 1, rss, [rss[0].(replicas := 0)] + rest)
  {
    forall i | 0 < i < |rss|
      ensures ([rss[0].(replicas := 0)] + rest)[i] == rest[i - 1] && rss[i] == rss[1..][i - 1]
    {
    }
  }

  /** Where every replica is available, the pods left standing are the replicas left. */
  lemma {:induction false} DrainedStanding(rss: seq<ReplicaSet>, budget: int, api: Api)
    requires forall i :: 0 <= i < |rss| ==> rss[i].replicas == rss[i].available
    ensures SumBy(Drain(rss, budget, api).rss, Standing) == SumBy(Drain(rss, budget, api).rss, Replicas)
  {
    var k := DrainIsPrefix(rss, budget, api);
    SumByPointwise(Drain(rss, budget, api).rss, Drain(rss, budget, api).rss, Standing, Replicas);
  }

  // ---------------------------------------------------------------------------------------------
  // Main result

  /** The pods left standing: unhealthy cleanup costs none, and without errors the drain stops exactly at
      `minAvailable`, or has removed every old replica. No failure on the way can lead below that. */
  lemma {:induction false} ScaleDownIsExactAndSafe(before: seq<ReplicaSet>, byAge: seq<ReplicaSet>,
      byRevision: seq<ReplicaSet>, after: seq<ReplicaSet>, elsewhere: nat, minAvailable: int, api: Api,
      outcome: Outcome)
    requires Active(before)
    requires IsScaleDown(before, byAge, byRevision, after, elsewhere, minAvailable, api, outcome)
    ensures
      var was, now := elsewhere + SumBy(before, Standing), elsewhere + SumBy(after, Standing);
      && now >= Min(was, minAvailable)
      && (outcome in {NoBudget, Done} ==> now == if was <= minAvailable then was else Max(minAvailable, elsewhere))
      && (outcome in {CleanupFailed, NoBudget} ==> now == was)
  {
    hide Cleanup, Drain;
    var Scaled(cleaned, ok) := Cleanup(byAge, api);
    SameMembersActive(before, byAge);
    SumByPermuted(before, byAge, Standing);
    CleanupKeepsAvailability(byAge, api);
    if outcome in {ScaleFailed, Done} {
      var budget := elsewhere + SumBy(cleaned, Available) - minAvailable;
      SumByPermuted(byRevision, cleaned, Replicas);
      forall i | 0 <= i < |byRevision|
        ensures byRevision[i].replicas == byRevision[i].available
      {
        SameMember(byRevision, cleaned, byRevision[i]);
      }
      DrainIsExact(byRevision, budget, api);
      SumNonNegative(byRevision);
      DrainedStanding(byRevision, budget, api);
    }
  }

  lemma {:induction false} SameMembersActive(rss: seq<ReplicaSet>, rss': seq<ReplicaSet>)
    requires Active(rss) && multiset(rss') == multiset(rss)
    ensures Active(rss')
  {
    forall i | 0 <= i < |rss'|
      ensures rss'[i].replicas > 0
    {
      SameMember(rss', rss, rss'[i]);
    }
  }
}
