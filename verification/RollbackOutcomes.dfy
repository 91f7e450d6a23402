/** When a rollout goes back, told from the ages and hashes of its ReplicaSets. */
module RollbackOutcomes {
  import opened Prelude
  import opened Rollback

  /** The places of the revisions that were created between the desired one and the stable one. */
  function InBetween(all: seq<Revision>, desired: Revision, stable: Revision): set<nat> {
    set i: nat | i < |all| && !all[i].experiment && desired.created < all[i].created && all[i].created < stable.created
  }

  /** The desired revision is older than the stable one, past fewer others than the window allows. */
  predicate GoesBackWithin(all: seq<Revision>, desired: Revision, stable: Option<Revision>, window: Option<int>) {
    match (stable, window)
    case (Some(current), Some(limit)) =>
      desired.created < current.created && |InBetween(all, desired, current)| < limit
    case _ => false
  }

  lemma {:induction false} WindowTells(all: seq<Revision>, desired: Revision, stable: Option<Revision>,
      window: Option<int>)
    ensures WithinWindow(all, desired, stable, window) <==> GoesBackWithin(all, desired, stable, window)
  {
    if stable.Some? {
      assert RevisionsBetween(all, |all|, desired, stable.value) == InBetween(all, desired, stable.value);
    }
  }

  /** The desired revision is the stable one, or goes back to one within the window or before its scale-down. */
  predicate GoesBackFast(all: seq<Revision>, desired: Revision, stable: Option<Revision>, window: Option<int>,
      withinDelay: bool)
  {
    && stable.Some?
    && (|| desired.hash == stable.value.hash
        || GoesBackWithin(all, desired, stable, window)
        || (withinDelay && desired.created < stable.value.created))
  }

  lemma {:induction false} FastTells(all: seq<Revision>, desired: Revision, stable: Option<Revision>,
      window: Option<int>, withinDelay: bool)
    ensures IsFastRollback(all, desired, stable, window, withinDelay) <==>
      GoesBackFast(all, desired, stable, window, withinDelay)
  {
    hide RevisionsBetween, InBetween;
    WindowTells(all, desired, stable, window);
  }
}
