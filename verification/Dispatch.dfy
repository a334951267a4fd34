/** `dispatch_one` on the repository. */
module Dispatch {
  import opened Basics
  import opened Table
  import opened Repository
  import opened Retry

  datatype Outcome = Delivered | Transient(reason: string, retryAfter: Option<real>) | Expired

  /** What the outside world decides about one dispatch: the clock at its steps, whether the database
      takes the lock and the write-back, the receiver's answer, the draw. */
  datatype Trip = Trip(
    start: Time,
    lockedAt: Time,
    doneAt: Time,
    lockOk: bool,
    writeOk: bool,
    outcome: Outcome,
    jitter: real)

  /** The write-back. */
  function Answered(r: Row, due: DueDelivery, trip: Trip): Row {
    var next := due.attempts + 1;
    var dead := next >= due.target.maxAttempts;
    var backoff := due.target.backoff;
    match trip.outcome
    case Delivered => DispatchRow(r, due.target.mode, trip.doneAt)
    case Transient(reason, after) =>
      FailRow(r, reason, NextAvailable(next, after, backoff, trip.jitter, trip.doneAt), dead)
    case Expired => FailRow(r, "callback timeout", NextAvailable(next, None, backoff, trip.jitter, trip.doneAt), dead)
  }

  /** The row `dispatch_one` leaves if nothing else touches it; a write-back that fails leaves the lease. */
  function Settled(r: Row, due: DueDelivery, buffer: Time, trip: Trip): Row {
    var locked := LockRow(r, trip.start + due.target.timeout as real + buffer, trip.lockedAt);
    if trip.writeOk then Answered(locked, due, trip) else locked
  }

  /** Returns the number under which the attempt is sent, if it is sent. */
  method DispatchOne(repo: PgRepo, due: DueDelivery, buffer: Time, trip: Trip) returns (attempt: Option<nat>)
    requires repo.Valid()
    modifies repo`rows
    ensures repo.Valid()
    ensures attempt.Some? <==>
              trip.lockOk && due.row in old(repo.rows) && Lockable(old(repo.rows)[due.row], trip.lockedAt)
    ensures attempt.Some? ==> attempt.value == due.attempts + 1
    ensures attempt.Some? ==>
              repo.rows == old(repo.rows)[due.row := Settled(old(repo.rows)[due.row], due, buffer, trip)]
    ensures attempt.None? ==> repo.rows == old(repo.rows)
  {
    if !trip.lockOk { return None; }
    var locked := repo.LockDelivery(due.row, trip.start + due.target.timeout as real + buffer, trip.lockedAt);
    if !locked { return None; }
    attempt := Some(due.attempts + 1);
    if !trip.writeOk { return; }
    match trip.outcome {
      case Delivered =>
        repo.MarkDispatched(due.row, due.target.mode, trip.doneAt);
      case Transient(reason, retryAfter) =>
        var next := due.attempts + 1;
        var at := NextAvailable(next, retryAfter, due.target.backoff, trip.jitter, trip.doneAt);
        repo.MarkFailure(due.row, reason, at, next >= due.target.maxAttempts);
      case Expired =>
        var next := due.attempts + 1;
        var at := NextAvailable(next, None, due.target.backoff, trip.jitter, trip.doneAt);
        repo.MarkFailure(due.row, "callback timeout", at, next >= due.target.maxAttempts);
    }
  }
}
