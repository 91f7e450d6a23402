/** Detecting that a rollout goes back to an earlier revision. */
module Rollback {
  import opened Prelude

  /** A ReplicaSet of the rollout; those of experiments do not count as revisions. */
  datatype Revision = Revision(hash: string, created: int, experiment: bool)

  /** A revision created after `older` and before `newer`. */
  predicate IsBetween(r: Revision, older: Revision, newer: Revision) {
    !r.experiment && older.created < r.created < newer.created
  }

  /** The places, among the first `n`, of the revisions between two. */
  function RevisionsBetween(rss: seq<Revision>, n: nat, older: Revision, newer: Revision): set<int>
    requires n <= |rss|
  {
    set i | 0 <= i < n && IsBetween(rss[i], older, newer)
  }

  /** The desired ReplicaSet is older than the stable one, with fewer than `window` revisions in between. */
  predicate WithinWindow(rss: seq<Revision>, desired: Revision, stable: Option<Revision>, window: Option<int>) {
    && stable.Some? && desired.created < stable.value.created
    && window.Some? && window.value > 0
    && |RevisionsBetween(rss, |rss|, desired, stable.value)| < window.value
  }

  method IsRollbackWithinWindow(rss: seq<Revision>, desired: Revision, stable: Option<Revision>, window: Option<int>)
    returns (within: bool)
    ensures within <==> WithinWindow(rss, desired, stable, window)
  {
    if stable == None || desired.created >= stable.value.created {
      return false;
    }
    if window.Some? && window.value > 0 {
      var windowSize := 0;
      for i := 0 to |rss|
        invariant windowSize == |RevisionsBetween(rss, i, desired, stable.value)|
      {
        OneMoreRevision(rss, i, desired, stable.value);
        if rss[i].experiment {
          continue;
        }
        if rss[i].created < stable.value.created && desired.created < rss[i].created {
          windowSize := windowSize + 1;
        }
      }
      return windowSize < window.value;
    }
    return false;
  }

  lemma {:induction false} OneMoreRevision(rss: seq<Revision>, n: nat, older: Revision, newer: Revision)
    requires n < |rss|
    ensures |RevisionsBetween(rss, n + 1, older, newer)| ==
      |RevisionsBetween(rss, n, older, newer)| + (if IsBetween(rss[n], older, newer) then 1 else 0)
  {
    hide IsBetween;
    var before, after := RevisionsBetween(rss, n, older, newer), RevisionsBetween(rss, n + 1, older, newer);
    if IsBetween(rss[n], older, newer) {
      assert after == before + {n};
    } else {
      assert after == before;
    }
  }

  /** Going back to the stable revision, or to one older than it. */
  predicate IsRollback(desired: Revision, stable: Option<Revision>) {
    stable.Some? && (stable.value.hash == desired.hash || desired.created < stable.value.created)
  }

  /** A rollback that may skip steps or pauses. `withinDelay` says a blue-green ReplicaSet has not reached its
      scale-down deadline. */
  predicate IsFastRollback(rss: seq<Revision>, desired: Revision, stable: Option<Revision>, window: Option<int>,
      withinDelay: bool)
  {
    && IsRollback(desired, stable)
    && (WithinWindow(rss, desired, stable, window) || withinDelay || stable.value.hash == desired.hash)
  }
}
