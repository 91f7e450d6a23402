/** Timing of rollout attempts: what the status records about the current attempt, and which duration metrics are
    emitted when status patches may fail. Times are whole seconds. */
module RolloutDurations {
  import opened Prelude

  datatype Completion = Promoted | FastPromoted | Aborted | Superseded | RolledBack | FastRolledBack

  /** The record of an attempt; it has ended when `finishedAt` is set. `status` may be known before that. */
  datatype Duration = Duration(startedAt: int, pausedAt: Option<int>, totalPaused: int, finishedAt: Option<int>,
                               status: Option<Completion>)

  /** What one pass over the rollout meets and decides. `wasAborted` is the progressing condition as stored,
      `rollback` says the change goes back to an earlier revision, fast or not, `promotion` is what promoting the
      stable hash in this pass noted. `othersChanged` says the status differs in a field outside the record. */
  datatype Pass = Pass(now: int, invalidSpec: bool, podSpecChanged: bool, promoted: bool, atReplicas: bool,
                       isAborted: bool, wasAborted: bool, rollback: Option<bool>, promotion: Option<Completion>,
                       manualPause: bool, othersChanged: bool, patched: bool)

  predicate Ended(d: Option<Duration>) {
    d.Some? && d.value.finishedAt.Some?
  }

  predicate InProgress(d: Option<Duration>) {
    d.Some? && d.value.finishedAt == None
  }

  function Since(from: Option<int>, now: int): int {
    if from.Some? then now - from.value else 0
  }

  /** The record of an attempt that ends now; a pause still open is counted. */
  function Complete(d: Duration, now: int, status: Completion): Duration {
    Duration(d.startedAt, None, d.totalPaused + Since(d.pausedAt, now), Some(now), Some(status))
  }

  function Begin(now: int): Duration {
    Duration(now, None, 0, None, None)
  }

  /** The outcome a record is heading for, or `default`. */
  function Outlook(d: Duration, default: Completion): Completion {
    if d.status.Some? then d.status.value else default
  }

  /** The record a pass starts from: a promotion in this pass notes its outcome if none is known. */
  function Noted(stored: Option<Duration>, p: Pass): Option<Duration> {
    if stored.Some? && stored.value.status == None && p.promotion.Some? then Some(stored.value.(status := p.promotion))
    else stored
  }

  predicate IsCompleted(p: Pass) {
    p.promoted && p.atReplicas
  }

  predicate Supersedes(stored: Option<Duration>, p: Pass) {
    InProgress(stored) && p.podSpecChanged && p.rollback == None
  }

  /** What the record becomes if the attempt in progress ends or changes course in this pass. */
  function Closed(stored: Option<Duration>, p: Pass): Option<Duration> {
    var d := Noted(stored, p);
    if !InProgress(stored) then d
    else if Supersedes(stored, p) then Some(Complete(d.value, p.now, Superseded))
    else
      var d' :=
        if !p.podSpecChanged then d.value
        else d.value.(status := Some(if p.rollback.value then FastRolledBack else RolledBack));
      if IsCompleted(p) then Some(Complete(d', p.now, Outlook(d', Promoted)))
      else if p.isAborted then Some(Complete(d', p.now, Outlook(d', Aborted)))
      else Some(d')
  }

  /** A new attempt begins: there is none in progress, the rollout is not at its target, and there is something new
      to roll out or an aborted attempt is retried. */
  predicate Starts(stored: Option<Duration>, p: Pass) {
    && !p.invalidSpec
    && (Closed(stored, p) == None || (Ended(Closed(stored, p)) && !IsCompleted(p)))
    && ((p.podSpecChanged && !IsCompleted(p)) || (!p.isAborted && p.wasAborted))
  }

  /** The metric the pass sets aside: the record of the attempt that ended in it. */
  function Pending(stored: Option<Duration>, p: Pass): Option<Duration> {
    if !p.invalidSpec && InProgress(stored) && Ended(Closed(stored, p)) then Closed(stored, p) else None
  }

  /** Open or close the pause of a record in progress. */
  function Paced(d: Duration, wasPaused: bool, p: Pass): Duration {
    if wasPaused && !p.manualPause then d.(pausedAt := None, totalPaused := d.totalPaused + Since(d.pausedAt, p.now))
    else if !wasPaused && p.manualPause && d.pausedAt == None then d.(pausedAt := Some(p.now))
    else d
  }

  /** The record after the pass. */
  function Calculate(stored: Option<Duration>, p: Pass): Option<Duration> {
    if p.invalidSpec then Noted(stored, p)
    else if Starts(stored, p) then Some(Paced(Begin(p.now), false, p))
    else if Closed(stored, p) == None || Ended(Closed(stored, p)) then Closed(stored, p)
    else Some(Paced(Closed(stored, p).value, stored.Some? && stored.value.pausedAt.Some?, p))
  }

  /** The pass takes effect: nothing differed, or the patch was accepted. */
  predicate Effective(stored: Option<Duration>, p: Pass) {
    (!p.othersChanged && Calculate(stored, p) == stored) || p.patched
  }

  class DurationTracker {
    /** The record as stored. */
    var stored: Option<Duration>

    /** The metrics emitted so far. */
    var emitted: seq<Duration>

    constructor ()
      ensures stored == None && emitted == []
    {
      stored, emitted := None, [];
    }

    method CalculateStatusDuration(p: Pass) returns (record: Option<Duration>, pending: Option<Duration>)
      ensures record == Calculate(stored, p) && pending == Pending(stored, p)
    {
      record, pending := Noted(stored, p), None;
      if p.invalidSpec {
        return;
      }
      var isCompleted := p.promoted && p.atReplicas;
      var durationPaused := stored.Some? && stored.value.pausedAt.Some?;
      if InProgress(stored) {
        if p.podSpecChanged {
          if p.rollback.Some? {
            record := Some(record.value.(status := Some(if p.rollback.value then FastRolledBack else RolledBack)));
          } else {
            record := Some(Complete(record.value, p.now, Superseded));
            pending := record;
          }
        }
        if isCompleted && !Ended(record) {
          record := Some(Complete(record.value, p.now, Outlook(record.value, Promoted)));
          pending := record;
          return;
        } else if p.isAborted && !Ended(record) {
          record := Some(Complete(record.value, p.now, Outlook(record.value, Aborted)));
          pending := record;
        }
      }
      if record == None || (Ended(record) && !isCompleted) {
        durationPaused := false;
        if p.podSpecChanged && !isCompleted {
          record := Some(Begin(p.now));
        } else if !p.isAborted && p.wasAborted {
          record := Some(Begin(p.now));
        }
      }
      if record == None || Ended(record) {
        return;
      }
      var d := record.value;
      if durationPaused && !p.manualPause {
        if d.pausedAt.Some? {
          record := Some(d.(totalPaused := d.totalPaused + (p.now - d.pausedAt.value), pausedAt := None));
        }
      } else if !durationPaused && p.manualPause {
        if d.pausedAt == None {
          record := Some(d.(pausedAt := Some(p.now)));
        }
      }
    }

    /** Store the record with the rest of the status. The metric is emitted after the patch, or when there is
        nothing to patch; a failing patch drops it. */
    method PersistRolloutStatus(p: Pass)
      modifies this
      ensures stored == if Effective(old(stored), p) then Calculate(old(stored), p) else old(stored)
      ensures emitted == if Effective(old(stored), p) && Pending(old(stored), p).Some?
                         then old(emitted) + [Pending(old(stored), p).value] else old(emitted)
    {
      hide Calculate, Pending;
      var record, pending := CalculateStatusDuration(p);
      var modified := p.othersChanged || record != stored;
      if modified {
        if !p.patched {
          return;
        }
        stored := record;
      }
      if pending.Some? {
        emitted := emitted + [pending.value];
      }
    }
  }
}
