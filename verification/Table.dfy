/** The `outbox_deliveries` row and the row-level effect of every SQL statement. */
module Table {
  import opened Basics

  datatype Mode = Managed | External

  /** One parsed entry of an event's callbacks array; durations in seconds. */
  datatype Target = Target(
    name: string,
    url: string,
    mode: Mode,
    signingKeyId: Option<string>,
    headers: map<string, string>,
    maxAttempts: nat,
    backoff: seq<nat>,
    timeout: nat,
    externalTimeout: Option<nat>,
    maxCycles: nat)

  datatype Row = Row(
    event: nat,
    name: string,
    mode: Mode,
    attempts: nat,
    lastError: Option<string>,
    lastAttemptAt: Option<Time>,
    availableAt: Time,
    lockedUntil: Option<Time>,
    dispatchedAt: Option<Time>,
    processedAt: Option<Time>,
    cycles: nat,
    deadLetter: bool,
    createdAt: Time)

  /** The timeout and the cycle limit the sweep's LATERAL join reads for a row. */
  datatype Hung = Hung(timeout: int, cycles: int)

  /** No element or a NULL timeout, both values, or a cast that raises an error. */
  datatype Reading = Nothing | Reads(hung: Hung) | Fails

  // ---- filters -------------------------------------------------------------

  predicate Free(r: Row, now: Time) {
    r.lockedUntil.None? || r.lockedUntil.value < now
  }

  predicate Live(r: Row) {
    r.processedAt.None? && !r.deadLetter
  }

  /** WHERE clause of `fetch_due_deliveries`. */
  predicate Due(r: Row, now: Time) {
    r.dispatchedAt.None? && Live(r) && r.availableAt <= now && Free(r, now)
  }

  /** WHERE clause of `lock_delivery`: neither `processed_at` nor `available_at` is checked. */
  predicate Lockable(r: Row, now: Time) {
    Free(r, now) && r.dispatchedAt.None? && !r.deadLetter
  }

  /** WHERE clause of `reset_hung_external`, for a row whose callback entry reads `h`. */
  predicate TimedOut(r: Row, h: Hung, at: Time) {
    r.mode.External? && r.dispatchedAt.Some? && Live(r) &&
    r.dispatchedAt.value + h.timeout as real < at
  }

  // ---- SET clauses -----------------------------------------------------------

  function NewRow(event: nat, name: string, mode: Mode, error: Option<string>, dead: bool, now: Time): Row {
    Row(event, name, mode, 0, error, None, now, None, None, None, 0, dead, now)
  }

  function LockRow(r: Row, until: Time, now: Time): Row {
    r.(lockedUntil := Some(until), attempts := r.attempts + 1, lastAttemptAt := Some(now))
  }

  function DispatchRow(r: Row, mode: Mode, now: Time): Row {
    if mode.Managed?
    then r.(dispatchedAt := Some(now), processedAt := Some(now), lockedUntil := None)
    else r.(dispatchedAt := Some(now), lockedUntil := None)
  }

  function FailRow(r: Row, error: string, availableAt: Time, dead: bool): Row {
    r.(lastError := Some(error), availableAt := availableAt, deadLetter := dead, lockedUntil := None)
  }

  function PoisonRow(r: Row, error: string): Row {
    r.(deadLetter := true, lastError := Some(error), lockedUntil := None)
  }

  function SweepRow(r: Row, h: Hung, at: Time): Row {
    if r.cycles + 1 >= h.cycles
    then r.(cycles := r.cycles + 1, deadLetter := true, lockedUntil := None,
            lastError := Some("external_completion_cycles_exhausted"))
    else r.(cycles := r.cycles + 1, deadLetter := false, lockedUntil := None, lastError := None,
            dispatchedAt := None, availableAt := at, attempts := 0)
  }

  function RetryRow(r: Row, now: Time): Row {
    r.(attempts := 0, lastError := None, availableAt := now, dispatchedAt := None,
       processedAt := None, cycles := 0, deadLetter := false, lockedUntil := None)
  }

  function CompleteRow(r: Row, now: Time): Row {
    if r.processedAt.Some? then r else r.(processedAt := Some(now))
  }

  function AbandonRow(r: Row): Row {
    r.(deadLetter := true, lastError := Some("abandoned by operator"))
  }

  // ---- INSERT ... ON CONFLICT (event_id, callback_name) DO NOTHING ---------------

  /** One tuple of an INSERT; `error` is the reason stored with a dead-lettered row. */
  datatype Entry = Entry(name: string, mode: Mode, dead: bool, error: Option<string>)

  predicate HasRow(rows: map<nat, Row>, event: nat, name: string) {
    exists id :: id in rows && rows[id].event == event && rows[id].name == name
  }

  function InsertRow(rows: map<nat, Row>, next: nat, event: nat, e: Entry, now: Time): map<nat, Row> {
    if HasRow(rows, event, e.name) then rows else rows[next := NewRow(event, e.name, e.mode, e.error, e.dead, now)]
  }

  /** Inserts the tuples in order. The serial id is consumed by a conflicting tuple as well. */
  function InsertRows(rows: map<nat, Row>, next: nat, event: nat, entries: seq<Entry>, now: Time): (map<nat, Row>, nat)
    decreases |entries|
  {
    if entries == [] then (rows, next)
    else InsertRows(InsertRow(rows, next, event, entries[0], now), next + 1, event, entries[1..], now)
  }
}
