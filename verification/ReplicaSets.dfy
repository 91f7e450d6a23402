/** ReplicaSets as the controller sees them. */
module ReplicaSets {
  import opened Prelude
  import opened Sorting

  /** The scale-down deadline annotation of a ReplicaSet. */
  datatype Deadline = NoDeadline | Unreadable | At(time: int)

  /** `replicas` is the size asked for, `available` the number of its pods that are available. */
  datatype ReplicaSet = ReplicaSet(
    name: string, hash: string, revision: int, created: int, replicas: nat, available: nat, deadline: Deadline)

  predicate Older(a: ReplicaSet, b: ReplicaSet) {
    a.created <= b.created
  }

  /** Descending revision, with the creation time as a tie breaker. */
  predicate Newer(a: ReplicaSet, b: ReplicaSet) {
    a.revision > b.revision || (a.revision == b.revision && a.created >= b.created)
  }

  /** The comparison by revision number, which the controller sorts in reverse. */
  predicate ByRevisionNumber(a: ReplicaSet, b: ReplicaSet) {
    if a.revision == b.revision then a.created < b.created else a.revision < b.revision
  }

  /** A list is sorted by `Newer` exactly when no ReplicaSet precedes one that the comparison places after it. */
  lemma {:induction false} NewestFirst(rss: seq<ReplicaSet>)
    ensures Sorted(rss, Newer) <==> forall i, j :: 0 <= i < j < |rss| ==> !ByRevisionNumber(rss[i], rss[j])
  {
    forall i, j | 0 <= i < j < |rss|
      ensures Newer(rss[i], rss[j]) <==> !ByRevisionNumber(rss[i], rss[j])
    {
    }
  }

  lemma {:induction false} Orders()
    ensures IsOrder(Older) && IsOrder(Newer)
  {
  }

  const Replicas: ReplicaSet -> int := (r: ReplicaSet) => r.replicas

  const Available: ReplicaSet -> int := (r: ReplicaSet) => r.available

  /** The available pods of a ReplicaSet once the cluster has brought it to the size asked for: pods that are not
      available are removed first. */
  const Standing: ReplicaSet -> int := (r: ReplicaSet) => Min(r.available, r.replicas)
}
