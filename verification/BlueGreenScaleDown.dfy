/** Scaling down the old ReplicaSets of a blue-green rollout, with a delay and a limit on how many are kept. */
module BlueGreenScaleDown {
  import opened Prelude
  import opened AnalysisTypes
  import opened Sorting
  import opened ReplicaSets

  /** What asking for a service gave. */
  datatype Lookup = NoService | LookupFailed | Selects(hash: string)

  /** What may still point at a ReplicaSet: the hashes recorded in the status, and the services as looked up. */
  datatype References = References(recorded: set<string>, services: seq<Lookup>)

  /** A ReplicaSet is referenced when a recorded hash or a service selects it, or a service could not be read. */
  predicate IsReferenced(r: ReplicaSet, refs: References) {
    r.hash != "" && (r.hash in refs.recorded || LookupFailed in refs.services || Selects(r.hash) in refs.services)
  }

  /** `clearDeadline` says a ReplicaSet scaled to zero loses its deadline annotation. */
  datatype Settings = Settings(limit: int, delaySeconds: nat, rolloutReplicas: nat, now: int, clearDeadline: bool,
                               refs: References)

  /** The post-promotion analysis as this pass sees it. */
  datatype PostPromotion = PostPromotion(configured: bool, delayGiven: bool, skipped: bool, phase: Option<Phase>)

  predicate HeldBack(inconclusivePause: bool, post: PostPromotion) {
    || inconclusivePause
    || (post.configured && !post.delayGiven && !post.skipped && post.phase != Some(Successful))
  }

  predicate Candidate(r: ReplicaSet, set_: Settings) {
    !IsReferenced(r, set_.refs) && r.replicas > 0
  }

  /** How many candidates stand in front of place `i`. */
  function Place(rss: seq<ReplicaSet>, i: nat, set_: Settings): nat
    requires i <= |rss|
  {
    if i == 0 then 0 else Place(rss, i - 1, set_) + (if Candidate(rss[i - 1], set_) then 1 else 0)
  }

  function ScaleTo(r: ReplicaSet, n: nat, set_: Settings): ReplicaSet {
    if r.replicas == n then r
    else r.(replicas := n, deadline := if n == 0 && set_.clearDeadline then NoDeadline else r.deadline)
  }

  /** What becomes of a candidate: beyond the limit it is scaled to zero; within it, it gets a deadline and keeps its
      size, or has the rollout's size until its deadline has passed. */
  function Retained(r: ReplicaSet, fits: bool, set_: Settings): ReplicaSet {
    if !fits then ScaleTo(r, 0, set_)
    else match r.deadline
      case NoDeadline => if set_.delaySeconds == 0 then r else r.(deadline := At(set_.now + set_.delaySeconds))
      case At(t) => ScaleTo(r, if t > set_.now then set_.rolloutReplicas else 0, set_)
      case Unreadable => ScaleTo(r, 0, set_)
  }

  /** The ReplicaSet at place `i` after the pass, told from its position alone. */
  function After(rss: seq<ReplicaSet>, i: nat, set_: Settings): ReplicaSet
    requires i < |rss|
  {
    if Candidate(rss[i], set_) then Retained(rss[i], Place(rss, i, set_) < set_.limit, set_) else rss[i]
  }

  class BlueGreenScaler {
    /** The old ReplicaSets. */
    var rss: seq<ReplicaSet>

    constructor (old_: seq<ReplicaSet>)
      ensures rss == old_
    {
      rss := old_;
    }

    /** Decide how many replicas the ReplicaSet at `i` keeps, and annotate it when it starts its delay. */
    method ScaleDownDelayHelper(i: nat, annotationedRSs: int, set_: Settings, annotate: string -> bool)
      returns (annotationedRSs': int, desiredReplicaCount: nat, ok: bool)
      requires i < |rss| && rss[i].replicas > 0
      modifies this
      ensures
        var r := old(rss)[i];
        var fits := annotationedRSs < set_.limit;
        && annotationedRSs' == (if fits || r.deadline != NoDeadline then annotationedRSs + 1 else annotationedRSs)
        && (ok ==> |rss| == |old(rss)| && rss == old(rss)[i := r.(deadline := rss[i].deadline)])
        && (ok ==> ScaleTo(rss[i], desiredReplicaCount, set_) == Retained(r, fits, set_))
        && (rss != old(rss) ==> desiredReplicaCount == r.replicas)
        && (!ok ==> rss == old(rss) && fits && set_.delaySeconds > 0 && !annotate(r.name))
    {
      var r := rss[i];
      annotationedRSs', desiredReplicaCount, ok := annotationedRSs, 0, true;
      if r.deadline == NoDeadline {
        if annotationedRSs < set_.limit {
          annotationedRSs' := annotationedRSs + 1;
          desiredReplicaCount := r.replicas;
          if set_.delaySeconds > 0 {
            if !annotate(r.name) {
              return annotationedRSs', desiredReplicaCount, false;
            }
            rss := rss[i := r.(deadline := At(set_.now + set_.delaySeconds))];
          }
        }
      } else {
        annotationedRSs' := annotationedRSs + 1;
        if annotationedRSs' <= set_.limit && r.deadline.At? && r.deadline.time > set_.now {
          desiredReplicaCount := set_.rolloutReplicas;
        }
      }
    }

    /** One pass, from the newest revision on. `reached` is how far it came: the ReplicaSets before it are as their
        place among the candidates says, the others are untouched. */
    method ScaleDownOldReplicaSetsForBlueGreen(inconclusivePause: bool, post: PostPromotion, set_: Settings,
        annotate: string -> bool, scale: (string, int) -> bool)
      returns (ghost sorted: seq<ReplicaSet>, ghost reached: nat, hasScaled: bool, ok: bool)
      modifies this
      ensures inconclusivePause ==> rss == old(rss) && ok && !hasScaled
      ensures post.configured && !post.delayGiven && !post.skipped && post.phase != Some(Successful) ==>
        rss == old(rss) && ok && !hasScaled
      ensures
        !inconclusivePause
        && (post.configured ==> post.delayGiven || post.skipped || post.phase == Some(Successful)) ==>
          IsSortOf(sorted, old(rss), Newer) && IsPass(sorted, reached, rss, set_) && (ok ==> reached == |rss|)
      ensures reached <= |sorted| == |rss| && (hasScaled <==> ok && Rescaled(sorted, reached, rss))
    {
      hide IsSortOf, IsOrder, IsReferenced, Retained, ScaleTo;
      sorted, reached, hasScaled, ok := rss, 0, false, true;
      if HeldBack(inconclusivePause, post) {
        return;
      }
      Orders();
      rss := Sort(rss, Newer);
      sorted := rss;
      var annotationedRSs := 0;
      for i := 0 to |rss|
        invariant ok && reached == i && |rss| == |sorted|
        invariant IsPass(sorted, i, rss, set_)
        invariant hasScaled <==> Rescaled(sorted, i, rss)
        invariant Counts(annotationedRSs, Place(sorted, i, set_), set_.limit)
      {
        var targetRS := rss[i];
        if IsReferenced(targetRS, set_.refs) || targetRS.replicas == 0 {
          reached := i + 1;
          continue;
        }
        var desiredReplicaCount;
        annotationedRSs, desiredReplicaCount, ok := ScaleDownDelayHelper(i, annotationedRSs, set_, annotate);
        if !ok {
          return sorted, i, false, false;
        }
        if rss[i].replicas != desiredReplicaCount {
          if !scale(targetRS.name, desiredReplicaCount) {
            return sorted, i, false, false;
          }
          Scales(rss[i], desiredReplicaCount, set_);
          rss := rss[i := ScaleTo(rss[i], desiredReplicaCount, set_)];
          hasScaled := true;
        } else {
          Scales(rss[i], desiredReplicaCount, set_);
        }
        reached := i + 1;
      }
    }
  }

  lemma {:induction false} Scales(r: ReplicaSet, n: nat, set_: Settings)
    ensures ScaleTo(r, n, set_).replicas == n && (r.replicas == n ==> ScaleTo(r, n, set_) == r)
  {
  }

  /** One of the first `n` ReplicaSets changed its size. */
  ghost predicate Rescaled(before: seq<ReplicaSet>, n: nat, after: seq<ReplicaSet>)
    requires n <= |before| == |after|
  {
    exists i :: 0 <= i < n && after[i].replicas != before[i].replicas
  }

  /** The counter of the loop: the number of candidates seen, until both are at the limit. */
  predicate Counts(annotationedRSs: int, place: nat, limit: int) {
    annotationedRSs == place || (annotationedRSs >= limit && place >= limit)
  }

  ghost predicate IsPass(sorted: seq<ReplicaSet>, reached: nat, after: seq<ReplicaSet>, set_: Settings) {
    && |after| == |sorted| && reached <= |sorted|
    && (forall i :: 0 <= i < reached ==> after[i] == After(sorted, i, set_))
    && (forall i :: reached <= i < |sorted| ==> after[i] == sorted[i])
  }

  // ---------------------------------------------------------------------------------------------
  // Main results

  /** The candidates among the first `n` that still have replicas after the pass. */
  function KeptAmong(sorted: seq<ReplicaSet>, after: seq<ReplicaSet>, n: nat, set_: Settings): nat
    requires n <= |sorted| == |after|
  {
    if n == 0 then 0
    else
      KeptAmong(sorted, after, n - 1, set_)
      + (if Candidate(sorted[n - 1], set_) && after[n - 1].replicas > 0 then 1 else 0)
  }

  lemma {:induction false} KeptWithinLimit(sorted: seq<ReplicaSet>, after: seq<ReplicaSet>, n: nat, set_: Settings)
    requires IsPass(sorted, |sorted|, after, set_) && n <= |sorted|
    ensures KeptAmong(sorted, after, n, set_) <= Min(Place(sorted, n, set_), Max(set_.limit, 0))
  {
    hide IsReferenced;
    if n > 0 {
      KeptWithinLimit(sorted, after, n - 1, set_);
      assert after[n - 1] == After(sorted, n - 1, set_);
    }
  }

  /** After a complete pass at most `limit` unreferenced old ReplicaSets have replicas left, and each of them is
      among the first `limit` candidates in descending order of revision: fewer than `limit` candidates are newer.
      A referenced ReplicaSet is as it was. */
  lemma {:induction false} AtMostLimitKept(before: seq<ReplicaSet>, sorted: seq<ReplicaSet>, after: seq<ReplicaSet>,
      set_: Settings, i: nat)
    requires IsSortOf(sorted, before, Newer) && IsPass(sorted, |sorted|, after, set_) && i < |sorted|
    ensures KeptAmong(sorted, after, |sorted|, set_) <= Max(set_.limit, 0)
    ensures Candidate(sorted[i], set_) && after[i].replicas > 0 ==>
      && Place(sorted, i, set_) < set_.limit
      && (forall j :: i < j < |sorted| ==> Newer(sorted[i], sorted[j]))
    ensures IsReferenced(sorted[i], set_.refs) ==> after[i] == sorted[i]
  {
    hide IsReferenced;
    KeptWithinLimit(sorted, after, |sorted|, set_);
    assert after[i] == After(sorted, i, set_);
  }

  /** A ReplicaSet that runs past its deadline, or drops out of the newest `limit`, is gone after one complete pass;
      one within the limit whose deadline lies ahead is kept at the size of the rollout. */
  lemma {:induction false} DeadlineDecides(sorted: seq<ReplicaSet>, after: seq<ReplicaSet>, set_: Settings, i: nat)
    requires IsPass(sorted, |sorted|, after, set_) && i < |sorted| && Candidate(sorted[i], set_)
    ensures after[i].replicas == 0 <==>
      || Place(sorted, i, set_) >= set_.limit
      || sorted[i].deadline == Unreadable
      || (sorted[i].deadline.At? && (sorted[i].deadline.time <= set_.now || set_.rolloutReplicas == 0))
    ensures sorted[i].deadline.At? && after[i].replicas > 0 ==> after[i].replicas == set_.rolloutReplicas
    ensures sorted[i].deadline == NoDeadline && after[i].replicas > 0 ==> after[i].replicas == sorted[i].replicas
  {
    hide IsReferenced;
    assert after[i] == After(sorted, i, set_);
  }

  /** Something still points at the ReplicaSet, or may: a service could not be read. */
  ghost predicate IsPointedAt(r: ReplicaSet, refs: References) {
    || r.hash in refs.recorded
    || exists k :: 0 <= k < |refs.services| && refs.services[k] in {LookupFailed, Selects(r.hash)}
  }

  /** The places, before `n`, of the ReplicaSets that run and that nothing points at. One without a hash is nobody's. */
  ghost function FreeBefore(rss: seq<ReplicaSet>, n: nat, refs: References): set<nat>
    requires n <= |rss|
  {
    set i: nat | i < n && rss[i].replicas > 0 && (rss[i].hash == "" || !IsPointedAt(rss[i], refs))
  }

  lemma {:induction false} PointedAtTells(r: ReplicaSet, refs: References)
    ensures IsReferenced(r, refs) <==> r.hash != "" && IsPointedAt(r, refs)
  {
    if LookupFailed in refs.services {
      var k :| 0 <= k < |refs.services| && refs.services[k] == LookupFailed;
    }
    if Selects(r.hash) in refs.services {
      var k :| 0 <= k < |refs.services| && refs.services[k] == Selects(r.hash);
    }
  }

  lemma {:induction false} PlaceTells(rss: seq<ReplicaSet>, n: nat, set_: Settings)
    requires n <= |rss|
    ensures Place(rss, n, set_) == |FreeBefore(rss, n, set_.refs)|
  {
    hide IsReferenced, IsPointedAt;
    if n > 0 {
      PlaceTells(rss, n - 1, set_);
      PointedAtTells(rss[n - 1], set_.refs);
      var before, after := FreeBefore(rss, n - 1, set_.refs), FreeBefore(rss, n, set_.refs);
      if rss[n - 1].replicas > 0 && (rss[n - 1].hash == "" || !IsPointedAt(rss[n - 1], set_.refs)) {
        assert after == before + {n - 1};
      } else {
        assert after == before;
      }
    }
  }

  /** What a complete pass does to one ReplicaSet. It is left alone while something points at it, and when nothing of
      it runs. Behind as many free ones as the limit allows it is scaled to zero. Among the first, one without a
      deadline gets one, unless there is no delay, and keeps its size; one whose deadline lies ahead gets the size of
      the rollout; and one whose deadline is over, or cannot be read, is scaled to zero. */
  lemma {:induction false} EachIsScaled(sorted: seq<ReplicaSet>, after: seq<ReplicaSet>, set_: Settings, i: nat)
    requires IsPass(sorted, |sorted|, after, set_) && i < |sorted|
    ensures
      var r, r', newer := sorted[i], after[i], |FreeBefore(sorted, i, set_.refs)|;
      && r' == r.(replicas := r'.replicas, deadline := r'.deadline)
      && (if r.replicas == 0 || (r.hash != "" && IsPointedAt(r, set_.refs)) then r' == r
          else if newer >= set_.limit then r'.replicas == 0
          else match r.deadline
               case NoDeadline =>
                 && r'.replicas == r.replicas
                 && r'.deadline == if set_.delaySeconds > 0 then At(set_.now + set_.delaySeconds) else NoDeadline
               case At(t) => r'.replicas == if set_.now < t then set_.rolloutReplicas else 0
               case Unreadable => r'.replicas == 0)
    ensures
      var r, r' := sorted[i], after[i];
      r'.deadline == r.deadline
      || (r'.deadline == NoDeadline && set_.clearDeadline && r'.replicas == 0 && r.replicas > 0)
      || (r.deadline == NoDeadline && set_.delaySeconds > 0 && r'.deadline == At(set_.now + set_.delaySeconds))
    ensures set_.clearDeadline && after[i].replicas == 0 && sorted[i].replicas > 0 ==> after[i].deadline == NoDeadline
  {
    hide IsReferenced, IsPointedAt, FreeBefore;
    PointedAtTells(sorted[i], set_.refs);
    PlaceTells(sorted, i, set_);
    assert after[i] == After(sorted, i, set_);
  }
}
